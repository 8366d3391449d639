/** What the driver's own data keep in every reachable state: inputs before the cursor are never stale, and
    beyond it only work that was really sent back. */
module AdvisorWork {
  import opened Prelude
  import opened States
  import opened TaskRows
  import opened Packs
  import opened AdvisorSpec

  // ---------- a step's attempts ----------

  /** The newest attempt of a step. */
  function LastOf(attempts: seq<Attempt>, id: string): (r: Option<nat>)
    ensures r.Some? ==> r.value < |attempts| && attempts[r.value].step == id
  {
    if attempts == [] then None
    else if attempts[|attempts| - 1].step == id then Some(|attempts| - 1)
    else LastOf(attempts[..|attempts| - 1], id)
  }

  predicate Accept(attempt: Attempt) {
    attempt.status.Completed?
  }

  predicate Reject(attempt: Attempt) {
    attempt.status.Failed? && attempt.failure.Acceptance?
  }

  predicate LastIs(attempts: seq<Attempt>, id: string, p: Attempt -> bool) {
    LastOf(attempts, id).Some? && p(attempts[LastOf(attempts, id).value])
  }

  lemma LastSnoc(attempts: seq<Attempt>, x: Attempt, id: string)
    ensures LastOf(attempts + [x], id) == if x.step == id then Some(|attempts|) else LastOf(attempts, id)
    ensures Failures(attempts + [x], id) == Failures(attempts, id) + if x.step == id && Reject(x) then 1 else 0
  {
    assert (attempts + [x])[..|attempts|] == attempts;
  }

  /** Nothing about the attempts of this step has changed. */
  ghost predicate SameFor(was: seq<Attempt>, now: seq<Attempt>, id: string) {
    && LastOf(was, id) == LastOf(now, id)
    && (LastOf(was, id).Some? ==> was[LastOf(was, id).value] == now[LastOf(was, id).value])
    && Failures(was, id) == Failures(now, id)
  }

  lemma OthersStay(was: seq<Attempt>, now: seq<Attempt>, id: string)
    requires now != [] && now[|now| - 1].step != id
    requires now[..|now| - 1] == was
             || (was != [] && now[..|now| - 1] == was[..|was| - 1] && was[|was| - 1].step != id)
    ensures SameFor(was, now, id)
  {
  }

  // ---------- the invariant ----------

  /** Step `i` is done, on the newest version of everything it read, and what it handed back is the newest. */
  ghost predicate UpToDate(pack: Pack, w: World, i: nat)
    requires i < |pack|
  {
    var last := LastOf(w.row.attempts, pack[i].id);
    && last.Some?
    && var attempt := w.row.attempts[last.value];
    && Accept(attempt)
    && Inputs(pack[i].inputRefs, w.arts) == Some(attempt.inputs)
    && pack[i].output in w.arts
    && attempt.output == Some((pack[i].output, w.arts[pack[i].output]))
  }

  /** A step from `i` on went back. */
  ghost predicate SentBackFrom(pack: Pack, backs: seq<string>, i: nat) {
    exists k :: i <= k < |pack| && pack[k].id in backs
  }

  /** Step `i`, which the cursor has not reached, was never tried; or was tried and then sent back,
      by itself if it was not accepted, by a later step if it was. */
  ghost predicate SentBack(pack: Pack, w: World, i: nat)
    requires i < |pack|
  {
    || LastOf(w.row.attempts, pack[i].id).None?
    || (LastIs(w.row.attempts, pack[i].id, Reject) && pack[i].id in w.backs)
    || (LastIs(w.row.attempts, pack[i].id, Accept) && SentBackFrom(pack, w.backs, i + 1))
  }

  ghost predicate Steps(pack: Pack, w: World) {
    && w.row.cursor <= |pack|
    && (forall i :: 0 <= i < w.row.cursor ==> UpToDate(pack, w, i))
    && (forall i :: w.row.cursor < i < |pack| ==> SentBack(pack, w, i))
  }

  predicate AtCursor(pack: Pack, w: World, i: nat) {
    i == w.row.cursor < |pack|
  }

  /** The newest attempt of all is the one in hand. */
  ghost predicate InHand(pack: Pack, w: World, i: nat, a: nat, reworks: nat, status: AttemptState) {
    && AtCursor(pack, w, i)
    && a + 1 == |w.row.attempts|
    && w.row.attempts[a].step == pack[i].id && w.row.attempts[a].status == status
    && Inputs(pack[i].inputRefs, w.arts) == Some(w.row.attempts[a].inputs)
    && Failures(w.row.attempts, pack[i].id) == reworks
  }

  /** What the driver's local variables still say about the rows. */
  ghost predicate Locals(pack: Pack, w: World) {
    match w.pc
    case Opening(i, inputs, reworks) =>
      && AtCursor(pack, w, i) && Inputs(pack[i].inputRefs, w.arts) == Some(inputs)
      && reworks == Failures(w.row.attempts, pack[i].id)
    case Began(i, a, reworks) => InHand(pack, w, i, a, reworks, AttemptState.Created)
    case Unask(i, a) => exists reworks: nat :: InHand(pack, w, i, a, reworks, AttemptState.Created)
    case InTurn(i, a, reworks) => InHand(pack, w, i, a, reworks, AttemptState.Created)
    case Read(i, a, reworks, _) => InHand(pack, w, i, a, reworks, AttemptState.Running)
    case Settle(i, a, reworks, _, _) => InHand(pack, w, i, a, reworks, AttemptState.Running)
    case Advance(i) => AtCursor(pack, w, i) && UpToDate(pack, w, i)
    case Judged(i, a, reworks, _) =>
      && AtCursor(pack, w, i) && LastIs(w.row.attempts, pack[i].id, Reject)
      && Failures(w.row.attempts, pack[i].id) == reworks + 1
    case AskFirst(i) => AtCursor(pack, w, i)
    case AskUser(i) => AtCursor(pack, w, i)
    case File => w.row.cursor == |pack|
    case Close => w.row.cursor == |pack|
    case Succeed => w.row.cursor == |pack|
    case _ => true
  }

  ghost predicate WorkInv(pack: Pack, w: World) {
    Steps(pack, w) && Locals(pack, w)
  }

  // ---------- frames ----------

  /** The columns only the driver writes are the same. */
  predicate SameWork(was: Task, now: Task) {
    now.attempts == was.attempts && now.cursor == was.cursor
  }

  lemma StepsFrame(pack: Pack, w: World, after: World)
    requires Steps(pack, w) && SameWork(w.row, after.row) && after.arts == w.arts && after.backs == w.backs
    ensures Steps(pack, after)
  {
    forall i | 0 <= i < after.row.cursor ensures UpToDate(pack, after, i) {
      assert UpToDate(pack, w, i);
    }
    forall i | after.row.cursor < i < |pack| ensures SentBack(pack, after, i) {
      assert SentBack(pack, w, i);
    }
  }

  /** Nobody else touches the driver's columns. */
  lemma OthersKeepWork(pack: Pack, w: World, other: Other)
    requires WorkInv(pack, w)
    ensures WorkInv(pack, Elsewhere(w, other))
  {
    var after := Elsewhere(w, other);
    assert SameWork(w.row, after.row);
    StepsFrame(pack, w, after);
    if w.pc.Unask? {
      var reworks: nat :| InHand(pack, w, w.pc.i, w.pc.a, reworks, AttemptState.Created);
      assert InHand(pack, after, w.pc.i, w.pc.a, reworks, AttemptState.Created);
    }
  }

  lemma {:induction false} InputsIgnore(refs: seq<string>, was: map<string, nat>, now: map<string, nat>)
    requires forall name :: name in refs ==> (name in was <==> name in now) && (name in was ==> was[name] == now[name])
    ensures Inputs(refs, was) == Inputs(refs, now)
  {
    if refs != [] {
      InputsIgnore(refs[..|refs| - 1], was, now);
      assert refs[|refs| - 1] in refs;
    }
  }

  /** A new version of what step `i` or the hand-back is called leaves every earlier step up to date. */
  lemma NewVersionKeeps(pack: Pack, w: World, after: World, name: string, version: nat, j: nat)
    requires PackOk(pack) && j < |pack| && UpToDate(pack, w, j)
    requires SameFor(w.row.attempts, after.row.attempts, pack[j].id) && after.arts == w.arts[name := version]
    requires name == HANDBACK || exists i :: j < i < |pack| && pack[i].output == name
    ensures UpToDate(pack, after, j)
  {
    assert ReadsEarlier(pack, j);
    assert name !in pack[j].inputRefs;
    InputsIgnore(pack[j].inputRefs, w.arts, after.arts);
  }

  /** The attempts of the step at the cursor may change; all other steps stay as they are. */
  lemma CursorStepWorks(pack: Pack, w: World, after: World)
    requires PackOk(pack) && Steps(pack, w) && w.row.cursor < |pack|
    requires after.row.cursor == w.row.cursor && after.arts == w.arts && after.backs == w.backs
    requires forall j :: 0 <= j < |pack| && j != w.row.cursor ==>
                           SameFor(w.row.attempts, after.row.attempts, pack[j].id)
    ensures Steps(pack, after)
  {
    forall i | 0 <= i < after.row.cursor ensures UpToDate(pack, after, i) {
      assert UpToDate(pack, w, i);
    }
    forall i | after.row.cursor < i < |pack| ensures SentBack(pack, after, i) {
      assert SentBack(pack, w, i);
    }
  }

  // ---------- every action of the driver keeps it ----------

  lemma OpeningAppends(row: Task, id: string, inputs: seq<(string, nat)>, reserve: Amount)
    requires OpenAttempt(row, id, inputs, reserve).Ok?
    ensures var after := OpenAttempt(row, id, inputs, reserve).value;
            && after.cursor == row.cursor
            && after.attempts == row.attempts + [Attempt(id, inputs, AttemptState.Created, reserve, 0.0, NoCode, None)]
  {
  }

  lemma OpenKeepsWork(pack: Pack, w: World)
    requires PackOk(pack) && WorkInv(pack, w) && w.pc.Opening?
    ensures w.pc.i < |pack| && WorkInv(pack, OpenStep(pack, w))
  {
    hide LastOf, Failures, Inputs, OpenAttempt, UpToDate, SentBack;
    var Opening(i, inputs, reworks) := w.pc;
    var r := OpenAttempt(w.row, pack[i].id, inputs, pack[i].reserve);
    var after := OpenStep(pack, w);
    if r.Ok? {
      OpeningAppends(w.row, pack[i].id, inputs, pack[i].reserve);
      var x := Attempt(pack[i].id, inputs, AttemptState.Created, pack[i].reserve, 0.0, NoCode, None);
      LastSnoc(w.row.attempts, x, pack[i].id);
      forall j | 0 <= j < |pack| && j != i ensures SameFor(w.row.attempts, after.row.attempts, pack[j].id) {
        OthersStay(w.row.attempts, after.row.attempts, pack[j].id);
      }
      CursorStepWorks(pack, w, after);
    } else {
      StepsFrame(pack, w, after);
    }
  }

  /** Moving the attempt in hand changes the record of the step at the cursor and of no other. */
  lemma MovingInHand(pack: Pack, w: World, i: nat, a: nat, reworks: nat, status: AttemptState, r: Result<Task>,
                     target: AttemptState, cost: Amount, failure: Failure, output: Option<(string, nat)>)
    requires PackOk(pack) && Steps(pack, w) && InHand(pack, w, i, a, reworks, status) && !Ended(status)
    requires r == MoveAttempt(w.row, a, target, cost, failure, output) && r.Ok?
    ensures var now := r.value.attempts;
            && SameWorkBut(w.row, r.value, a)
            && now[a].status == target && now[a].inputs == w.row.attempts[a].inputs && now[a].step == pack[i].id
            && (Ended(target) ==> now[a].failure == failure && (output.Some? ==> now[a].output == output))
            && LastOf(now, pack[i].id) == Some(a)
            && Failures(now, pack[i].id) == reworks + (if target.Failed? && failure.Acceptance? then 1 else 0)
            && forall j :: 0 <= j < |pack| && j != i ==> SameFor(w.row.attempts, now, pack[j].id)
  {
    hide Steps, PackOk, Inputs;
    var now := r.value.attempts;
    var was := w.row.attempts;
    assert forall j :: 0 <= j < |pack| && j != i ==> pack[j].id != pack[i].id by { DistinctIds(pack); }
    assert was == was[..a] + [was[a]] && now == was[..a] + [now[a]];
    LastSnoc(was[..a], was[a], pack[i].id);
    LastSnoc(was[..a], now[a], pack[i].id);
    forall j | 0 <= j < |pack| && j != i ensures SameFor(was, now, pack[j].id) {
      OthersStay(was, now, pack[j].id);
    }
  }

  lemma DistinctIds(pack: Pack)
    requires PackOk(pack)
    ensures forall i, j | 0 <= i < |pack| && 0 <= j < |pack| :: pack[i].id == pack[j].id ==> i == j
  {
  }

  predicate SameWorkBut(was: Task, now: Task, a: nat) {
    && now.cursor == was.cursor && |now.attempts| == |was.attempts| && a < |was.attempts|
    && now.attempts == was.attempts[a := now.attempts[a]]
  }

  lemma SettleKeepsWork(pack: Pack, w: World)
    requires PackOk(pack) && WorkInv(pack, w) && w.pc.Settle?
    ensures w.pc.i < |pack| && WorkInv(pack, SettleAs(pack, w))
  {
    hide MoveAttempt, LastOf, Failures, Inputs, UpToDate, SentBack;
    var Settle(i, a, reworks, turn, branch) := w.pc;
    var after := SettleAs(pack, w);
    if after.pc.Idle? && after.row == w.row {
      StepsFrame(pack, w, after);
    } else if !branch.Accepted? {
      var (target, failure) := match branch
        case Interrupted(_) => (AttemptState.Cancelled, CancelledByUser)
        case StoppedByUser => (AttemptState.Failed, Stopped)
        case Lost => (AttemptState.Failed, EnvironmentLost)
        case Errored => (AttemptState.Failed, TurnError)
        case Overspent => (AttemptState.BudgetExceeded, NoCode)
        case _ => (AttemptState.Failed, Acceptance);
      MovingInHand(pack, w, i, a, reworks, AttemptState.Running, Ok(after.row), target, turn.cost, failure, None);
      CursorStepWorks(pack, w, after);
    } else {
      AcceptKeepsWork(pack, w);
    }
  }

  lemma AcceptKeepsWork(pack: Pack, w: World)
    requires PackOk(pack) && WorkInv(pack, w) && w.pc.Settle? && w.pc.branch.Accepted?
    requires SettleAs(pack, w).pc.Advance?
    ensures WorkInv(pack, SettleAs(pack, w))
  {
    hide MoveAttempt;
    var Settle(i, a, reworks, turn, branch) := w.pc;
    var after := SettleAs(pack, w);
    var version := NextVersion(w.arts, pack[i].output);
    MovingInHand(pack, w, i, a, reworks, AttemptState.Running, Ok(after.row), AttemptState.Completed, turn.cost, NoCode,
                 Some((pack[i].output, version)));
    forall j | 0 <= j < i ensures UpToDate(pack, after, j) {
      assert UpToDate(pack, w, j);
      NewVersionKeeps(pack, w, after, pack[i].output, version, j);
    }
    assert UpToDate(pack, after, i) by {
      assert pack[i].output !in pack[i].inputRefs by {
        assert ReadsEarlier(pack, i);
      }
      InputsIgnore(pack[i].inputRefs, w.arts, after.arts);
    }
    forall j | i < j < |pack| ensures SentBack(pack, after, j) {
      assert SentBack(pack, w, j) && SameFor(w.row.attempts, after.row.attempts, pack[j].id);
    }
  }

  lemma AdvanceKeepsWork(pack: Pack, w: World, after: World)
    requires PackOk(pack) && WorkInv(pack, w) && w.pc.Advance?
    requires after == w.(row := w.row.(cursor := w.row.cursor + 1, version := w.row.version + 1),
                         pc := if w.row.cursor + 1 >= |pack| then File else Requeue)
    ensures WorkInv(pack, after)
  {
    forall j | 0 <= j < after.row.cursor ensures UpToDate(pack, after, j) {
      assert UpToDate(pack, w, j);
    }
    forall j | after.row.cursor < j < |pack| ensures SentBack(pack, after, j) {
      assert SentBack(pack, w, j);
    }
  }

  lemma JudgeKeepsWork(pack: Pack, w: World)
    requires PackOk(pack) && WorkInv(pack, w) && w.pc.Judged?
    ensures w.pc.i < |pack| && WorkInv(pack, Judge(pack, w))
  {
    var i := w.pc.i;
    var after := Judge(pack, w);
    if after.row == w.row {
      StepsFrame(pack, w, after);
    } else {
      assert after.backs == w.backs + [pack[i].id] && after.row.cursor < i;
      forall j | 0 <= j < after.row.cursor ensures UpToDate(pack, after, j) {
        assert UpToDate(pack, w, j);
      }
      forall j | after.row.cursor < j < |pack| ensures SentBack(pack, after, j) {
        assert pack[i].id in after.backs;
        if j < i {
          assert UpToDate(pack, w, j);
          assert SentBackFrom(pack, after.backs, j + 1);
        } else if j > i {
          assert SentBack(pack, w, j);
          if SentBackFrom(pack, w.backs, j + 1) {
            var k :| j + 1 <= k < |pack| && pack[k].id in w.backs;
            assert pack[k].id in after.backs;
          }
        }
      }
    }
  }

  lemma FileKeepsWork(pack: Pack, w: World, after: World)
    requires PackOk(pack) && WorkInv(pack, w) && w.pc.File?
    requires after == w.(arts := w.arts[HANDBACK := NextVersion(w.arts, HANDBACK)], pc := Close)
    ensures WorkInv(pack, after)
  {
    forall j | 0 <= j < |pack| ensures UpToDate(pack, after, j) {
      assert UpToDate(pack, w, j);
      NewVersionKeeps(pack, w, after, HANDBACK, NextVersion(w.arts, HANDBACK), j);
    }
  }

  /** Creating, starting or withdrawing the attempt in hand. */
  lemma TurnKeepsWork(pack: Pack, w: World, admitted: bool, turn: Turn)
    requires PackOk(pack) && WorkInv(pack, w) && (w.pc.Unask? || w.pc.InTurn?)
    ensures WorkInv(pack, Tick(pack, w, admitted, turn))
  {
    hide MoveAttempt;
    var after := Tick(pack, w, admitted, turn);
    if after.pc.Idle? {
      StepsFrame(pack, w, after);
    } else if w.pc.Unask? {
      var reworks: nat :| InHand(pack, w, w.pc.i, w.pc.a, reworks, AttemptState.Created);
      MovingInHand(pack, w, w.pc.i, w.pc.a, reworks, AttemptState.Created, Ok(after.row), AttemptState.Cancelled, 0.0,
                   AskedFirst, None);
      CursorStepWorks(pack, w, after);
    } else {
      MovingInHand(pack, w, w.pc.i, w.pc.a, w.pc.reworks, AttemptState.Created, Ok(after.row), AttemptState.Running,
                   0.0, NoCode, None);
      CursorStepWorks(pack, w, after);
    }
  }

  lemma MovingKeepsWork(row: Task, target: TaskState, reason: Option<WaitingReason>)
    ensures Move(row, target, reason).Ok? ==> SameWork(row, Move(row, target, reason).value)
  {
  }

  lemma AskingKeepsWork(row: Task, kind: Kind, reason: WaitingReason, step: string, askBefore: bool)
    ensures Ask(row, kind, reason, step, askBefore).Ok? ==> SameWork(row, Ask(row, kind, reason, step, askBefore).value)
  {
  }

  /** The actions that only move the task, ask, or read. */
  lemma PlainKeepsWork(pack: Pack, w: World, admitted: bool, turn: Turn)
    requires PackOk(pack) && WorkInv(pack, w)
    requires match w.pc
             case Opening(_, _, _) | Unask(_, _) | InTurn(_, _, _) | Settle(_, _, _, _, _) => false
             case Advance(_) | Judged(_, _, _, _) | File => false
             case _ => true
    ensures WorkInv(pack, Tick(pack, w, admitted, turn))
  {
    hide Steps, Move, Ask, Failures, LastOf;
    forall target: TaskState, reason: Option<WaitingReason>
      ensures Move(w.row, target, reason).Ok? ==> SameWork(w.row, Move(w.row, target, reason).value)
    {
      MovingKeepsWork(w.row, target, reason);
    }
    forall kind: Kind, why: WaitingReason, step: string, first: bool
      ensures Ask(w.row, kind, why, step, first).Ok? ==> SameWork(w.row, Ask(w.row, kind, why, step, first).value)
    {
      AskingKeepsWork(w.row, kind, why, step, first);
    }
    StepsFrame(pack, w, Tick(pack, w, admitted, turn));
    assert w.row.cursor <= |pack| by { StepsBound(pack, w); }
    if w.pc.Began? {
      assert InHand(pack, Tick(pack, w, admitted, turn), w.pc.i, w.pc.a, w.pc.reworks, AttemptState.Created);
    }
  }

  lemma StepsBound(pack: Pack, w: World)
    requires Steps(pack, w)
    ensures w.row.cursor <= |pack|
  {
  }

  lemma TickKeepsWork(pack: Pack, w: World, admitted: bool, turn: Turn)
    requires PackOk(pack) && WorkInv(pack, w)
    ensures WorkInv(pack, Tick(pack, w, admitted, turn))
  {
    hide Steps, Move, Ask, MoveAttempt, SettleAs, Judge, OpenStep, PackOk;
    var after := Tick(pack, w, admitted, turn);
    match w.pc {
      case Opening(_, _, _) => OpenKeepsWork(pack, w);
      case Unask(_, _) => TurnKeepsWork(pack, w, admitted, turn);
      case InTurn(_, _, _) => TurnKeepsWork(pack, w, admitted, turn);
      case Settle(_, _, _, _, _) => SettleKeepsWork(pack, w);
      case Advance(_) => AdvanceKeepsWork(pack, w, after);
      case Judged(_, _, _, _) => JudgeKeepsWork(pack, w);
      case File => FileKeepsWork(pack, w, after);
      case _ => PlainKeepsWork(pack, w, admitted, turn);
    }
  }

  lemma NextKeepsWork(pack: Pack, w: World, e: Event)
    requires PackOk(pack) && WorkInv(pack, w)
    ensures WorkInv(pack, Next(pack, w, e))
  {
    match e {
      case Act(admitted, turn) => TickKeepsWork(pack, w, admitted, turn);
      case Meanwhile(other) => OthersKeepWork(pack, w, other);
      case _ => StepsFrame(pack, w, Next(pack, w, e));
    }
  }

  /** In every state of every run of the driver, whatever happens meanwhile. */
  lemma {:induction false} EveryRunKeepsWork(pack: Pack, w: World, events: seq<Event>)
    requires PackOk(pack) && WorkInv(pack, w)
    ensures WorkInv(pack, After(pack, w, events))
    decreases |events|
  {
    if events != [] {
      NextKeepsWork(pack, w, events[0]);
      EveryRunKeepsWork(pack, Next(pack, w, events[0]), events[1..]);
    }
  }
}
