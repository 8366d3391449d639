/** The advisor as the program runs it: a loop over a persistent cursor, acting on the task's rows one store
    action at a time while others write them too. Every action is proved equal to one step of the state
    machine, and the loop is proved to end. */
module AdvisorService {
  import opened Prelude
  import opened States
  import opened TaskRows
  import opened RowProofs
  import opened Packs
  import opened AdvisorSpec
  import opened AdvisorWork
  import opened AdvisorFlow
  import opened AdvisorBounds
  import AdvisorRuns

  // ---------- what a drive is ----------

  function Writes(others: seq<Other>): seq<Event> {
    seq(|others|, n requires 0 <= n < |others| => Meanwhile(others[n]))
  }

  /** A drive of so many actions: before each of them others write, and each has its own result at hand. */
  function Course(results: nat -> (bool, Turn), meanwhile: nat -> seq<Other>, actions: nat): seq<Event> {
    if actions == 0 then [Event.Drive]
    else
      Course(results, meanwhile, actions - 1) + Writes(meanwhile(actions - 1))
      + [Event.Act(results(actions - 1).0, results(actions - 1).1)]
  }

  lemma NoWrites(others: seq<Other>)
    ensures Writes(others[..0]) == []
  {
  }

  lemma WritesMore(others: seq<Other>, n: nat)
    requires n < |others|
    ensures Writes(others[..n + 1]) == Writes(others[..n]) + [Meanwhile(others[n])]
  {
  }

  // ---------- why the loop ends ----------

  /** One action uses up a rework, a go-back or a step, or brings the driver closer to its next turn's end. */
  ghost predicate Descends(pack: Pack, w: World, after: World) {
    Left(pack, after) < Left(pack, w) || (Left(pack, after) == Left(pack, w) && Rank(pack, after) < Rank(pack, w))
  }

  lemma MovingDescends(pack: Pack, w: World, admitted: bool, turn: Turn)
    requires PackOk(pack) && WorkInv(pack, w) && (w.pc.Unask? || w.pc.InTurn?)
    ensures Descends(pack, w, Tick(pack, w, admitted, turn))
  {
    hide MoveAttempt, Left, Steps;
    var after := Tick(pack, w, admitted, turn);
    if after.pc.Idle? {
      SameLeft(pack, w, after);
    } else if w.pc.Unask? {
      var reworks: nat :| InHand(pack, w, w.pc.i, w.pc.a, reworks, AttemptState.Created);
      MovingInHandCounts(pack, w, after, w.pc.i, w.pc.a, reworks, AttemptState.Created, AttemptState.Cancelled, 0.0,
                         AskedFirst, None);
    } else {
      MovingInHandCounts(pack, w, after, w.pc.i, w.pc.a, w.pc.reworks, AttemptState.Created, AttemptState.Running, 0.0,
                         NoCode, None);
    }
  }

  lemma SettleDescends(pack: Pack, w: World)
    requires PackOk(pack) && WorkInv(pack, w) && w.pc.Settle?
    ensures w.pc.i < |pack| && Descends(pack, w, SettleAs(pack, w))
  {
    hide MoveAttempt, Left, Steps;
    var Settle(i, a, reworks, turn, branch) := w.pc;
    var after := SettleAs(pack, w);
    var output := if branch.Accepted? then Some((pack[i].output, NextVersion(w.arts, pack[i].output))) else None;
    var (target, failure) := SettledAs(branch);
    if MoveAttempt(w.row, a, target, turn.cost, failure, output).Err? {
      SameLeft(pack, w, after);
    } else {
      MovingInHandCounts(pack, w, after, i, a, reworks, AttemptState.Running, target, turn.cost, failure, output);
    }
  }

  lemma JudgeDescends(pack: Pack, w: World)
    requires PackOk(pack) && WorkInv(pack, w) && w.pc.Judged?
    ensures w.pc.i < |pack| && Descends(pack, w, Judge(pack, w))
  {
    hide UpToDate, SentBack, ReworksLeft, BacksLeft;
    var i := w.pc.i;
    var after := Judge(pack, w);
    if after.backs != w.backs {
      OneBack(pack, w.backs, i);
      assert |pack| * BacksLeft(pack, after.backs) == |pack| * BacksLeft(pack, w.backs) - |pack|;
    } else {
      SameLeft(pack, w, after);
    }
  }

  lemma PlainDescends(pack: Pack, w: World, admitted: bool, turn: Turn)
    requires !w.pc.Idle?
    requires match w.pc
             case Opening(_, _, _) | Unask(_, _) | InTurn(_, _, _) | Settle(_, _, _, _, _) => false
             case Advance(_) | Judged(_, _, _, _) => false
             case _ => true
    ensures Descends(pack, w, Tick(pack, w, admitted, turn))
  {
    hide Left, Failures, Inputs, TaskMoves, Branching, AnsweredFirst;
    SameLeft(pack, w, Tick(pack, w, admitted, turn));
  }

  lemma TickDescends(pack: Pack, w: World, admitted: bool, turn: Turn)
    requires PackOk(pack) && WorkInv(pack, w) && !w.pc.Idle?
    ensures Descends(pack, w, Tick(pack, w, admitted, turn))
  {
    hide MoveAttempt, Left, Steps, SettleAs, Judge, OpenAttempt, Move, Ask, Inputs, Failures;
    var after := Tick(pack, w, admitted, turn);
    match w.pc {
      case Opening(_, _, _) => OpenKeepsLeft(pack, w);
      case Unask(_, _) => MovingDescends(pack, w, admitted, turn);
      case InTurn(_, _, _) => MovingDescends(pack, w, admitted, turn);
      case Settle(_, _, _, _, _) => SettleDescends(pack, w);
      case Advance(_) => AdvanceDescends(pack, w, after);
      case Judged(_, _, _, _) => JudgeDescends(pack, w);
      case _ => PlainDescends(pack, w, admitted, turn);
    }
  }

  lemma AdvanceDescends(pack: Pack, w: World, after: World)
    requires w.pc.Advance? && after.backs == w.backs && after.row.attempts == w.row.attempts
    requires after.row.cursor == w.row.cursor + 1
    ensures Descends(pack, w, after)
  {
  }

  /** Others neither use anything up nor move the driver. */
  lemma OthersDoNotClimb(pack: Pack, w: World, other: Other)
    requires RowInv(w.row)
    ensures Left(pack, Elsewhere(w, other)) == Left(pack, w) && Rank(pack, Elsewhere(w, other)) <= Rank(pack, w)
  {
    hide RowAfter, Left;
    OthersDoNotDisturb(w.row, other);
    SameLeft(pack, w, Elsewhere(w, other));
  }

  lemma SomeLeft(pack: Pack, w: World)
    requires DriveInv(pack, w)
    ensures Left(pack, w) >= 0
  {
    LeftIsPositive(pack, w);
  }

  /** An action leaves the crash count, or adds one and stops; and it stops without one only at rest. */
  lemma StopsProperly(pack: Pack, w: World, admitted: bool, turn: Turn)
    requires DriveInv(pack, w) && !w.pc.Idle?
    ensures var after := Tick(pack, w, admitted, turn);
            && (after.crashes == w.crashes || (after.crashes == w.crashes + 1 && after.pc.Idle?))
            && (after.pc.Idle? && after.crashes == w.crashes ==> AdvisorRuns.AtRest(after.row))
  {
    CrashesCount(pack, w, admitted, turn);
    hide Tick, WorkInv, RowInv, Bounded;
    var after := Tick(pack, w, admitted, turn);
    if after.pc.Idle? && after.crashes == w.crashes {
      AdvisorRuns.DriveEndsAtRest(pack, w, admitted, turn);
    }
  }

  lemma CrashesCount(pack: Pack, w: World, admitted: bool, turn: Turn)
    ensures var after := Tick(pack, w, admitted, turn);
            after.crashes == w.crashes || (after.crashes == w.crashes + 1 && after.pc.Idle?)
  {
    hide Move, Ask, MoveAttempt, OpenAttempt, Inputs, Failures, AnsweredFirst, Branching;
  }

  // ---------- the object ----------

  class Advisor {
    const pack: Pack
    var row: Task
    var arts: map<string, nat>
    var backs: seq<string>
    var pc: Pc
    var turns: nat
    var resumes: nat
    var crashes: nat

    constructor (pack: Pack, row: Task)
      ensures this.pack == pack && World() == AdvisorSpec.World(row, map[], [], Idle, 0, 0, 0)
    {
      this.pack := pack;
      this.row := row;
      arts, backs, pc := map[], [], Idle;
      turns, resumes, crashes := 0, 0, 0;
    }

    function World(): World
      reads this
    {
      AdvisorSpec.World(row, arts, backs, pc, turns, resumes, crashes)
    }

    /** The exception that ends a drive. */
    method Stop()
      modifies this
      ensures World() == Die(old(World()))
    {
      pc, crashes := Idle, crashes + 1;
    }

    /** A transaction of the ledger, and where the driver goes on. */
    method Commit(r: Result<Task>, next: Pc)
      modifies this
      ensures World() == Wrote(old(World()), r, next)
    {
      if r.Err? {
        Stop();
      } else {
        row, pc := r.value, next;
      }
    }

    method CountFailures(id: string) returns (reworks: nat)
      ensures reworks == Failures(row.attempts, id)
    {
      reworks := 0;
      for k := 0 to |row.attempts|
        invariant reworks == Failures(row.attempts[..k], id)
      {
        assert row.attempts[..k + 1][..k] == row.attempts[..k];
        var attempt := row.attempts[k];
        if attempt.step == id && attempt.status.Failed? && attempt.failure.Acceptance? {
          reworks := reworks + 1;
        }
      }
      assert row.attempts[..|row.attempts|] == row.attempts;
    }

    method CountBacks(id: string) returns (times: nat)
      ensures times == TimesBack(backs, id)
    {
      times := 0;
      for k := 0 to |backs|
        invariant times == TimesBack(backs[..k], id)
      {
        assert backs[..k + 1][..k] == backs[..k];
        if backs[k] == id {
          times := times + 1;
        }
      }
      assert backs[..|backs|] == backs;
    }

    /** The newest version of every input, or the first that is missing. */
    method ReadInputs(refs: seq<string>) returns (inputs: Option<seq<(string, nat)>>)
      ensures inputs == Inputs(refs, arts)
    {
      var found: seq<(string, nat)> := [];
      for k := 0 to |refs|
        invariant Inputs(refs[..k], arts) == Some(found)
      {
        assert refs[..k + 1][..k] == refs[..k];
        if refs[k] !in arts {
          MissingStays(refs, arts, k + 1);
          return None;
        }
        found := found + [(refs[k], arts[refs[k]])];
      }
      assert refs[..|refs|] == refs;
      return Some(found);
    }

    method CheckState()
      requires pc.Check?
      modifies this
      ensures World() == CheckStep(pack, old(World()))
    {
      if row.state != TaskState.Queued && row.state != TaskState.Running {
        pc := Idle;
        return;
      }
      if row.cancel {
        pc := CancelTask;
        return;
      }
      if row.cursor >= |pack| {
        pc := File;
        return;
      }
      var step := pack[row.cursor];
      var reworks := CountFailures(step.id);
      var inputs := ReadInputs(step.inputRefs);
      if inputs.None? {
        pc := FailTask;
      } else {
        pc := Opening(row.cursor, inputs.value, reworks);
      }
    }

    method SettleTurn()
      requires pc.Settle? && pc.i < |pack|
      modifies this
      ensures World() == SettleAs(pack, old(World()))
    {
      hide MoveAttempt;
      var Settle(i, a, reworks, turn, branch) := pc;
      match branch {
        case Interrupted(over) =>
          var r := MoveAttempt(row, a, AttemptState.Cancelled, turn.cost, CancelledByUser, None);
          Commit(r, if over then Idle else CancelTask);
        case StoppedByUser =>
          var r := MoveAttempt(row, a, AttemptState.Failed, turn.cost, Stopped, None);
          Commit(r, AskUser(i));
        case Lost =>
          var r := MoveAttempt(row, a, AttemptState.Failed, turn.cost, EnvironmentLost, None);
          Commit(r, WaitEnvironment);
        case Errored =>
          var r := MoveAttempt(row, a, AttemptState.Failed, turn.cost, TurnError, None);
          Commit(r, FailTask);
        case Overspent =>
          var r := MoveAttempt(row, a, AttemptState.BudgetExceeded, turn.cost, NoCode, None);
          Commit(r, Idle);
        case Accepted =>
          var version := NextVersion(arts, pack[i].output);
          var r := MoveAttempt(row, a, AttemptState.Completed, turn.cost, NoCode, Some((pack[i].output, version)));
          if r.Ok? {
            arts := arts[pack[i].output := version];    // one commit with the attempt
          }
          Commit(r, Advance(i));
        case Refused =>
          var r := MoveAttempt(row, a, AttemptState.Failed, turn.cost, Acceptance, None);
          Commit(r, Judged(i, a, reworks, turn.noData));
      }
    }

    method JudgeRefusal()
      requires pc.Judged? && pc.i < |pack|
      modifies this
      ensures World() == Judge(pack, old(World()))
    {
      var Judged(i, a, reworks, noData) := pc;
      var step := pack[i];
      if noData {
        pc := AskUser(i);
        return;
      }
      if reworks < step.maxReworks {
        pc := Requeue;
        return;
      }
      if GoesBack(step) {
        var times := CountBacks(step.id);
        if times < step.maxBacks {
          var target := IndexOf(pack, step.backTo.value);
          if target.None? {
            Stop();
            return;
          }
          backs := backs + [step.id];
          row := row.(cursor := target.value, version := row.version + 1);
          pc := Requeue;
          return;
        }
      }
      pc := AskUser(i);
    }

    /** The actions that end the drive: the task waits for somebody, or is over. */
    method EndDrive(ghost admitted: bool, ghost turn: Turn)
      requires Exits(pc)
      modifies this
      ensures World() == Tick(pack, old(World()), admitted, turn)
    {
      hide Move, Ask;
      match pc {
        case HardStop => Commit(Ask(row, ToppingUp, Resource, "", false), Idle);
        case AskFirst(i) =>
          if i < |pack| { Commit(Ask(row, Question, Input, pack[i].id, true), Idle); } else { Stop(); }
        case AskUser(i) =>
          if i < |pack| { Commit(Ask(row, InputWanted, Input, pack[i].id, false), Idle); } else { Stop(); }
        case WaitEnvironment => Commit(Move(row, TaskState.Waiting, Some(Environment)), Idle);
        case CancelTask => Commit(Move(row, TaskState.Cancelled, None), Idle);
        case FailTask => Commit(Move(row, TaskState.Failed, None), Idle);
        case Succeed => Commit(Move(row, TaskState.Succeeded, None), Idle);
      }
    }

    /** One store action, with what the pack check and the turn bring in from outside. */
    method Act(admitted: bool, turn: Turn)
      modifies this
      ensures World() == Tick(pack, old(World()), admitted, turn)
    {
      hide Move, Ask, MoveAttempt, OpenAttempt, SettleAs, Judge, CheckStep, Branching, AnsweredFirst;
      match pc {
        case Idle =>
        case Begin =>
          if row.state.Received? {
            Commit(Move(row, TaskState.Validating, None), Begin);
          } else if row.state.Validating? {
            pc := Admit;
          } else {
            pc := Check;
          }
        case Admit =>
          if !admitted {
            Commit(Move(row, TaskState.Rejected, None), Idle);
          } else {
            row, pc := row.(version := row.version + 1), Enqueue;
          }
        case Enqueue => Commit(Move(row, TaskState.Queued, None), Check);
        case Check => CheckState();
        case Opening(i, inputs, reworks) =>
          if i >= |pack| {
            Stop();
          } else {
            var r := OpenAttempt(row, pack[i].id, inputs, pack[i].reserve);
            if r == Err(BudgetExhausted) {
              pc := HardStop;
            } else {
              Commit(r, Began(i, |row.attempts|, reworks));
            }
          }
        case Began(i, a, reworks) =>
          if i >= |pack| {
            Stop();
          } else if pack[i].asksBefore && !AnsweredFirst(row, pack[i].id) {
            pc := Unask(i, a);
          } else {
            pc, turns := InTurn(i, a, reworks), turns + 1;
          }
        case Unask(i, a) =>
          Commit(MoveAttempt(row, a, AttemptState.Cancelled, 0.0, AskedFirst, None), AskFirst(i));
        case InTurn(i, a, reworks) =>
          Commit(MoveAttempt(row, a, AttemptState.Running, 0.0, NoCode, None), Read(i, a, reworks, turn));
        case Read(i, a, reworks, result) => pc := Settle(i, a, reworks, result, Branching(row, result));
        case Settle(i, _, _, _, _) => if i < |pack| { SettleTurn(); } else { Stop(); }
        case Advance(_) =>
          row := row.(cursor := row.cursor + 1, version := row.version + 1);
          pc := if row.cursor >= |pack| then File else Requeue;
        case Judged(i, _, _, _) => if i < |pack| { JudgeRefusal(); } else { Stop(); }
        case Requeue =>
          if row.state.Running? { Commit(Move(row, TaskState.Queued, None), Check); } else { pc := Check; }
        case File => arts, pc := arts[HANDBACK := NextVersion(arts, HANDBACK)], Close;
        case Close =>
          if row.state.Queued? { Commit(Move(row, TaskState.Running, None), Succeed); } else { pc := Succeed; }
        case _ => EndDrive(admitted, turn);
      }
    }

    /** Somebody else writes the row between two actions of the driver. */
    method Yield(other: Other)
      modifies this
      ensures World() == Elsewhere(old(World()), other)
    {
      var after := RowAfter(row, other);
      if row.state.Waiting? && Open(after) && !after.state.Waiting? {
        resumes := resumes + 1;
      }
      row := after;
    }

    /** Drives the task until it stops: finished, waiting for somebody, or raising. Whatever the turns bring
        and whatever others write between any two actions, it does stop, at the first action after which nobody
        drives, and what it did is one run of the state machine, so everything proved of runs holds of it. */
    method Drive(results: nat -> (bool, Turn), meanwhile: nat -> seq<Other>) returns (ghost actions: nat)
      requires pc.Idle? && PackOk(pack) && DriveInv(pack, World())
      modifies this
      ensures pc.Idle? && DriveInv(pack, World())
      ensures World() == After(pack, old(World()), Course(results, meanwhile, actions))
      ensures forall n: nat :: n < actions ==> !After(pack, old(World()), Course(results, meanwhile, n)).pc.Idle?
      ensures crashes == old(crashes) ==> Terminal(row.state) || row.state.Waiting?
    {
      hide Left, Tick, RowAfter, WorkInv, RowInv, Bounded, Placed, PackOk, Writes;
      ghost var start := World();
      pc := Begin;
      ghost var events := [Event.Drive];
      NextKeeps(pack, start, Event.Drive);
      AdvisorRuns.AfterMore(pack, start, [], Event.Drive);
      var k := 0;
      while !pc.Idle?
        invariant DriveInv(pack, World()) && World() == After(pack, start, events)
        invariant events == Course(results, meanwhile, k)
        invariant forall n: nat :: n < k ==> !After(pack, start, Course(results, meanwhile, n)).pc.Idle?
        invariant if pc.Idle? then crashes > start.crashes || AdvisorRuns.AtRest(row) else crashes == start.crashes
        decreases Left(pack, World()), Rank(pack, World())
      {
        ghost var head := World();
        SomeLeft(pack, head);
        var others := meanwhile(k);
        NoWrites(others);
        for n := 0 to |others|
          invariant DriveInv(pack, World()) && World() == After(pack, start, events)
          invariant events == Course(results, meanwhile, k) + Writes(others[..n])
          invariant !pc.Idle? && crashes == start.crashes
          invariant Left(pack, World()) == Left(pack, head) && Rank(pack, World()) <= Rank(pack, head)
        {
          ghost var w := World();
          NextKeeps(pack, w, Meanwhile(others[n]));
          OthersDoNotClimb(pack, w, others[n]);
          AdvisorRuns.AfterMore(pack, start, events, Meanwhile(others[n]));
          Yield(others[n]);
          WritesMore(others, n);
          events := events + [Meanwhile(others[n])];
        }
        assert others[..|others|] == others;
        ghost var w := World();
        var (admitted, turn) := results(k);
        NextKeeps(pack, w, Event.Act(admitted, turn));
        TickDescends(pack, w, admitted, turn);
        StopsProperly(pack, w, admitted, turn);
        AdvisorRuns.AfterMore(pack, start, events, Event.Act(admitted, turn));
        Act(admitted, turn);
        events := events + [Event.Act(admitted, turn)];
        k := k + 1;
      }
      actions := k;
    }
  }

  lemma {:induction false} MissingStays(refs: seq<string>, arts: map<string, nat>, k: nat)
    requires k <= |refs| && Inputs(refs[..k], arts).None?
    ensures Inputs(refs, arts).None?
    decreases |refs| - k
  {
    if k == |refs| {
      assert refs[..k] == refs;
    } else {
      assert refs[..k + 1][..k] == refs[..k];
      MissingStays(refs, arts, k + 1);
    }
  }
}
