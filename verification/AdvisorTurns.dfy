/** What the driver does next, told by what it leaves behind: after every way a turn can come back, at the start of a
    task, and before a step that asks first. Nobody else writes in between, and everything is said of the rows. */
module AdvisorTurns {
  import opened Prelude
  import opened States
  import opened TaskRows
  import opened RowProofs
  import opened LedgerOutcomes
  import opened Packs
  import opened AdvisorSpec
  import opened AdvisorWork
  import opened AdvisorFlow
  import opened AdvisorBounds
  import opened AdvisorRuns
  import opened AdvisorRestarts

  // ---------- the driver by itself ----------

  /** The world after `n` more actions of the driver. */
  function Driven(pack: Pack, w: World, n: nat): World
    decreases n
  {
    if n == 0 then w else Driven(pack, Tick(pack, w, true, ANY), n - 1)
  }

  function Actions(n: nat): seq<Event> {
    seq(n, _ => Act(true, ANY))
  }

  lemma {:induction false} DrivenIsARun(pack: Pack, w: World, n: nat)
    ensures Driven(pack, w, n) == After(pack, w, Actions(n))
    decreases n
  {
    hide Tick;
    if n > 0 {
      DrivenIsARun(pack, Tick(pack, w, true, ANY), n - 1);
      assert Actions(n)[1..] == Actions(n - 1);
    }
  }

  lemma {:induction false} DrivenKeeps(pack: Pack, w: World, n: nat)
    requires PackOk(pack) && DriveInv(pack, w)
    ensures DriveInv(pack, Driven(pack, w, n))
    decreases n
  {
    hide Tick, DriveInv, PackOk;
    if n > 0 {
      NextKeeps(pack, w, Act(true, ANY));
      DrivenKeeps(pack, Tick(pack, w, true, ANY), n - 1);
    }
  }

  lemma {:induction false} DrivenOn(pack: Pack, w: World, m: nat, n: nat)
    ensures Driven(pack, w, m + n) == Driven(pack, Driven(pack, w, m), n)
    decreases m
  {
    hide Tick;
    if m > 0 {
      DrivenOn(pack, Tick(pack, w, true, ANY), m - 1, n);
    }
  }

  // ---------- counting ----------

  /** The attempts of a step that were not accepted. */
  ghost function NotAccepted(attempts: seq<Attempt>, id: string): set<nat> {
    set a: nat | a < |attempts| && attempts[a].step == id
                 && attempts[a].status.Failed? && attempts[a].failure.Acceptance?
  }

  lemma OneMoreNotAccepted(attempts: seq<Attempt>, id: string)
    ensures NotAccepted([], id) == {}
    ensures attempts != [] ==>
              var n := |attempts| - 1;
              var before := NotAccepted(attempts[..n], id);
              && n !in before
              && NotAccepted(attempts, id)
                 == if attempts[n].step == id && attempts[n].status.Failed? && attempts[n].failure.Acceptance?
                    then before + {n} else before
  {
  }

  lemma {:induction false} FailuresCount(attempts: seq<Attempt>, id: string)
    ensures Failures(attempts, id) == |NotAccepted(attempts, id)|
  {
    hide NotAccepted;
    OneMoreNotAccepted(attempts, id);
    if attempts != [] {
      FailuresCount(attempts[..|attempts| - 1], id);
    }
  }

  lemma {:induction false} BacksCount(backs: seq<string>, id: string)
    ensures TimesBack(backs, id) == multiset(backs)[id]
  {
    if backs != [] {
      BacksCount(backs[..|backs| - 1], id);
      assert backs == backs[..|backs| - 1] + [backs[|backs| - 1]];
    }
  }

  // ---------- where it can stand ----------

  /** A turn has come back and nothing has been made of it yet; the task is still on its way. */
  ghost predicate TurnIsBack(pack: Pack, w: World) {
    && Reachable(pack, w) && w.pc.Read?
    && (w.row.state.Running? || w.row.state.Queued?)
    && (w.row.limit.Some? ==> w.row.limit.value > 0.0)
  }

  /** The budget covers the cost of the turn, and then a reservation. */
  predicate CoversBoth(row: Task, cost: real, reserve: real) {
    row.limit.Some? ==> row.used + cost + reserve <= row.limit.value
  }

  /** One more attempt has been opened, of step `k`, and nobody was asked anything. */
  predicate GoesOnWith(pack: Pack, w: World, z: World, k: nat) {
    && k < |pack| && z.pc.Began? && z.pc.i == k && z.row.state.Running? && z.row.cursor == k
    && |z.row.attempts| == |w.row.attempts| + 1 && z.row.attempt == Some(|w.row.attempts|)
    && z.row.attempts[|w.row.attempts|].step == pack[k].id && z.row.attempts[|w.row.attempts|].status.Created?
    && Some(z.row.attempts[|w.row.attempts|].inputs) == Inputs(pack[k].inputRefs, z.arts)
    && z.row.interactions == w.row.interactions
  }

  /** The drive is over, and the task waits for an answer to a new question. */
  predicate WaitsFor(w: World, z: World, kind: Kind, why: WaitingReason, step: string, first: bool) {
    && z.pc.Idle? && z.crashes == w.crashes && z.row.state.Waiting? && z.row.reason == Some(why)
    && z.row.attempt.None? && |z.row.attempts| == |w.row.attempts|
    && z.row.interaction == Some(|w.row.interactions|) && |z.row.interactions| == |w.row.interactions| + 1
    && z.row.interactions[..|w.row.interactions|] == w.row.interactions
    && var asked := z.row.interactions[|w.row.interactions|];
    asked.kind == kind && asked.status.Pending? && asked.step == step && asked.askBefore == first
    && asked.target == z.row.version
  }

  /** The drive is over, and so is the task. */
  predicate EndsAs(w: World, z: World, state: TaskState) {
    && z.pc.Idle? && z.crashes == w.crashes && z.row.state == state && z.row.attempt.None? && z.row.interaction.None?
    && |z.row.attempts| == |w.row.attempts|
  }

  // ---------- the end of the attempt ----------

  /** The attempt has ended as `target`, its cost is charged, and nothing else of it is left. */
  predicate Over(row: Task, now: Task, a: nat, target: AttemptState, cost: real, failure: Failure) {
    && a < |row.attempts| && |now.attempts| == |row.attempts|
    && now.attempts == row.attempts[a := now.attempts[a]]
    && now.attempts[a].status == target && now.attempts[a].failure == failure
    && now.attempts[a].step == row.attempts[a].step
    && now.attempt.None? && now.used == row.used + cost && now.reserved == 0.0 && now.limit == row.limit
    && (now.state, now.cancel, now.cursor) == (row.state, row.cancel, row.cursor)
    && (now.interactions, now.interaction) == (row.interactions, row.interaction)
  }

  lemma AttemptEnds(row: Task, a: nat, target: AttemptState, cost: Amount, failure: Failure,
                    output: Option<(string, nat)>)
    requires RowInv(row) && Open(row) && a < |row.attempts| && row.attempts[a].status.Running?
    requires row.limit.Some? ==> row.limit.value > 0.0
    requires target.Completed? || target.Failed? || target.Cancelled?
    ensures var r := MoveAttempt(row, a, target, cost, failure, output);
            r.Ok? && Over(row, r.value, a, target, cost, failure)
  {
    hide Booked, WithinLimit, OneWait, CappedWait, GaveBack;
    MovedIs(row, a, target, cost, failure, output);
    ChargeIsExact(row, a, target, cost);
  }

  /** Where the driver goes on once a turn of step `i` has been settled. */
  function Onward(branch: Branch, i: nat, a: nat, reworks: nat, noData: bool): Pc {
    match branch
    case Interrupted(over) => if over then Idle else CancelTask
    case StoppedByUser => AskUser(i)
    case Lost => WaitEnvironment
    case Errored => FailTask
    case Overspent => Idle
    case Accepted => Advance(i)
    case Refused => Judged(i, a, reworks, noData)
  }

  lemma InHandAtRead(pack: Pack, w: World)
    requires DriveInv(pack, w) && w.pc.Read?
    ensures var Read(i, a, reworks, _) := w.pc;
            && i == w.row.cursor < |pack| && a + 1 == |w.row.attempts| && w.row.attempts[a].step == pack[i].id
            && w.row.attempts[a].status.Running? && Failures(w.row.attempts, pack[i].id) == reworks
    ensures RowInv(w.row)
  {
  }

  lemma ReadTick(pack: Pack, w: World)
    requires w.pc.Read?
    ensures Tick(pack, w, true, ANY)
         == w.(pc := Settle(w.pc.i, w.pc.a, w.pc.reworks, w.pc.turn, Branching(w.row, w.pc.turn)))
  {
    hide Branching;
  }

  function Output(pack: Pack, w: World, i: nat, branch: Branch): Option<(string, nat)>
    requires i < |pack|
  {
    if branch.Accepted? then Some((pack[i].output, NextVersion(w.arts, pack[i].output))) else None
  }

  lemma SettleTick(pack: Pack, s: World, row: Task)
    requires s.pc.Settle? && s.pc.i < |pack|
    requires var (target, failure) := SettledAs(s.pc.branch);
             MoveAttempt(s.row, s.pc.a, target, s.pc.turn.cost, failure, Output(pack, s, s.pc.i, s.pc.branch))
             == Ok(row)
    ensures Tick(pack, s, true, ANY)
         == s.(row := row, pc := Onward(s.pc.branch, s.pc.i, s.pc.a, s.pc.reworks, s.pc.turn.noData),
               arts := if s.pc.branch.Accepted?
                       then s.arts[pack[s.pc.i].output := NextVersion(s.arts, pack[s.pc.i].output)] else s.arts)
  {
    hide MoveAttempt, NextVersion;
  }

  lemma Twice(pack: Pack, w: World)
    ensures Driven(pack, w, 2) == Tick(pack, Tick(pack, w, true, ANY), true, ANY)
  {
    hide Tick;
  }

  /** The turn is settled in two actions. */
  lemma TurnSettles(pack: Pack, w: World)
    requires PackOk(pack) && TurnIsBack(pack, w) && !Branching(w.row, w.pc.turn).Overspent?
    ensures w.pc.i == w.row.cursor < |pack|
    ensures var (z, branch) := (Driven(pack, w, 2), Branching(w.row, w.pc.turn));
            var (target, failure) := SettledAs(branch);
            && DriveInv(pack, z) && Over(w.row, z.row, w.pc.a, target, w.pc.turn.cost, failure)
            && z.pc == Onward(branch, w.pc.i, w.pc.a, w.pc.reworks, w.pc.turn.noData)
            && (z.backs, z.turns, z.crashes) == (w.backs, w.turns, w.crashes)
            && z.arts == (if branch.Accepted?
                          then w.arts[pack[w.pc.i].output := NextVersion(w.arts, pack[w.pc.i].output)] else w.arts)
  {
    hide PackOk, DriveInv, MoveAttempt, RowInv, Branching, NextVersion, Tick, Driven, After, Over;
    ReachableKeeps(pack, w);
    DrivenKeeps(pack, w, 2);
    InHandAtRead(pack, w);
    hide Reachable;
    var Read(i, a, reworks, turn) := w.pc;
    var branch := Branching(w.row, turn);
    var (target, failure) := SettledAs(branch);
    AttemptEnds(w.row, a, target, turn.cost, failure, Output(pack, w, i, branch));
    ReadTick(pack, w);
    var s := Tick(pack, w, true, ANY);
    SettleTick(pack, s, MoveAttempt(w.row, a, target, turn.cost, failure, Output(pack, w, i, branch)).value);
    Twice(pack, w);
  }

  // ---------- going on ----------

  /** Nothing is open, and the budget allows a reservation. */
  predicate CanReserve(row: Task, reserve: real) {
    row.attempt.None?
    && (row.limit.Some? ==> row.limit.value > 0.0 && row.used + row.reserved + reserve <= row.limit.value)
  }

  predicate OnItsWay(row: Task) {
    (row.state.Queued? || row.state.Running?) && !row.cancel
  }

  lemma CheckTick(pack: Pack, w: World)
    requires PackOk(pack) && DriveInv(pack, w) && w.pc.Check? && OnItsWay(w.row) && w.row.cursor < |pack|
    ensures Inputs(pack[w.row.cursor].inputRefs, w.arts).Some?
    ensures var k := w.row.cursor;
            Tick(pack, w, true, ANY)
            == w.(pc := Opening(k, Inputs(pack[k].inputRefs, w.arts).value, Failures(w.row.attempts, pack[k].id)))
  {
    InputsAreThere(pack, w);
    hide Inputs, Failures, PackOk, DriveInv;
  }

  lemma OpeningTick(pack: Pack, w: World)
    requires w.pc.Opening? && w.pc.i == w.row.cursor < |pack| && OnItsWay(w.row) && w.row.attempt.None?
    requires w.row.limit.Some? ==> w.row.limit.value > 0.0
    requires Inputs(pack[w.pc.i].inputRefs, w.arts) == Some(w.pc.inputs)
    ensures var z := Tick(pack, w, true, ANY);
            && (z.arts, z.backs, z.turns, z.crashes) == (w.arts, w.backs, w.turns, w.crashes)
            && (if CanReserve(w.row, pack[w.pc.i].reserve) then GoesOnWith(pack, w, z, w.pc.i)
                else z == w.(pc := HardStop))
  {
    OpensExactly(w.row, pack[w.pc.i].id, w.pc.inputs, pack[w.pc.i].reserve);
    hide OpenAttempt, Inputs;
  }

  lemma AskTick(pack: Pack, w: World, kind: Kind, why: WaitingReason, step: string, first: bool)
    requires (w.row.state.Queued? || w.row.state.Running?) && w.row.attempt.None?
    requires || (w.pc.HardStop? && (kind, why, step, first) == (ToppingUp, Resource, "", false))
             || (w.pc.AskUser? && w.pc.i < |pack|
                 && (kind, why, step, first) == (InputWanted, Input, pack[w.pc.i].id, false))
             || (w.pc.AskFirst? && w.pc.i < |pack|
                 && (kind, why, step, first) == (Question, Input, pack[w.pc.i].id, true))
    ensures var z := Tick(pack, w, true, ANY);
            WaitsFor(w, z, kind, why, step, first)
            && (z.arts, z.backs, z.turns) == (w.arts, w.backs, w.turns)
  {
  }

  /** From the head of the loop the step at the cursor is opened, or the user is asked for more budget. */
  lemma ChecksOn(pack: Pack, w: World)
    requires PackOk(pack) && DriveInv(pack, w) && w.pc.Check? && OnItsWay(w.row) && w.row.cursor < |pack|
    requires w.row.attempt.None? && (w.row.limit.Some? ==> w.row.limit.value > 0.0)
    ensures if CanReserve(w.row, pack[w.row.cursor].reserve)
            then GoesOnWith(pack, w, Driven(pack, w, 2), w.row.cursor) && Driven(pack, w, 2).backs == w.backs
            else WaitsFor(w, Driven(pack, w, 3), ToppingUp, Resource, "", false) && Driven(pack, w, 3).backs == w.backs
  {
    hide PackOk, DriveInv, Tick, Driven, Inputs, Failures, GoesOnWith, WaitsFor;
    CheckTick(pack, w);
    var s := Tick(pack, w, true, ANY);
    OpeningTick(pack, s);
    Twice(pack, w);
    var z := Tick(pack, s, true, ANY);
    if CanReserve(w.row, pack[w.row.cursor].reserve) {
      SameStart(pack, s, w, z, w.row.cursor);
    } else {
      AskTick(pack, z, ToppingUp, Resource, "", false);
      DrivenOn(pack, w, 2, 1);
      Once(pack, z);
      SameWait(z, w, Tick(pack, z, true, ANY), ToppingUp, Resource, "", false);
    }
  }

  lemma Once(pack: Pack, w: World)
    ensures Driven(pack, w, 1) == Tick(pack, w, true, ANY)
  {
    hide Tick;
  }

  /** What was said from one world holds from another with as many attempts and the same questions. */
  lemma SameStart(pack: Pack, s: World, w: World, z: World, k: nat)
    requires GoesOnWith(pack, s, z, k)
    requires |s.row.attempts| == |w.row.attempts| && s.row.interactions == w.row.interactions
    ensures GoesOnWith(pack, w, z, k)
  {
  }

  lemma SameWait(s: World, w: World, z: World, kind: Kind, why: WaitingReason, step: string, first: bool)
    requires WaitsFor(s, z, kind, why, step, first) && s.crashes == w.crashes
    requires |s.row.attempts| == |w.row.attempts| && s.row.interactions == w.row.interactions
    ensures WaitsFor(w, z, kind, why, step, first)
  {
  }

  lemma RequeueTick(pack: Pack, w: World)
    requires w.pc.Requeue? && OnItsWay(w.row)
    ensures var z := Tick(pack, w, true, ANY);
            && z == w.(row := z.row, pc := Check) && OnItsWay(z.row)
            && z.row == w.row.(state := TaskState.Queued, reason := z.row.reason, version := z.row.version)
  {
  }

  /** From a requeue the step at the cursor is opened, or the user is asked for more budget. */
  lemma RequeuesOn(pack: Pack, w: World)
    requires PackOk(pack) && DriveInv(pack, w) && w.pc.Requeue? && OnItsWay(w.row) && w.row.cursor < |pack|
    requires w.row.attempt.None? && (w.row.limit.Some? ==> w.row.limit.value > 0.0)
    ensures if CanReserve(w.row, pack[w.row.cursor].reserve)
            then GoesOnWith(pack, w, Driven(pack, w, 3), w.row.cursor) && Driven(pack, w, 3).backs == w.backs
            else WaitsFor(w, Driven(pack, w, 4), ToppingUp, Resource, "", false) && Driven(pack, w, 4).backs == w.backs
  {
    hide PackOk, DriveInv, Tick, Driven, GoesOnWith, WaitsFor;
    RequeueTick(pack, w);
    NextKeeps(pack, w, Act(true, ANY));
    var s := Tick(pack, w, true, ANY);
    ChecksOn(pack, s);
    Once(pack, w);
    DrivenOn(pack, w, 1, 2);
    DrivenOn(pack, w, 1, 3);
    if CanReserve(w.row, pack[w.row.cursor].reserve) {
      SameStart(pack, s, w, Driven(pack, w, 3), w.row.cursor);
    } else {
      SameWait(s, w, Driven(pack, w, 4), ToppingUp, Resource, "", false);
    }
  }

  // ---------- a turn that was not accepted ----------

  /** The work came back whole and within the budget, nobody had called it off, and it did not pass. */
  predicate RefusedTurn(row: Task, turn: Turn) {
    && !row.cancel && !turn.stopped && !turn.lost && !turn.failed && !turn.accepted
    && (row.limit.Some? ==> row.used + turn.cost <= row.limit.value)
  }

  /** The step may be done again: there was something to work with, and with this attempt it has not failed more often
      than it may. */
  ghost predicate MayRedo(step: StepContract, attempts: seq<Attempt>, noData: bool) {
    !noData && |NotAccepted(attempts, step.id)| + 1 <= step.maxReworks
  }

  /** It may send the work back: it names a step to go back to, and has gone back less often than it may. */
  predicate MayGoBack(step: StepContract, backs: seq<string>, noData: bool) {
    && !noData && step.onReject == OnReject.Back && step.backTo.Some? && step.backTo.value != ""
    && multiset(backs)[step.id] < step.maxBacks
  }

  lemma JudgeTick(pack: Pack, w: World, attempts: seq<Attempt>)
    requires PackOk(pack) && w.pc.Judged? && w.pc.i < |pack|
    requires Failures(attempts, pack[w.pc.i].id) == w.pc.reworks
    ensures var (z, step) := (Tick(pack, w, true, ANY), pack[w.pc.i]);
            if MayRedo(step, attempts, w.pc.noData) then z == w.(pc := Requeue)
            else if MayGoBack(step, w.backs, w.pc.noData) then
              exists k: nat :: k < w.pc.i && pack[k].id == step.backTo.value
                && z == w.(backs := w.backs + [step.id], pc := Requeue,
                           row := w.row.(cursor := k, version := w.row.version + 1))
            else z == w.(pc := AskUser(w.pc.i))
  {
    FailuresCount(attempts, pack[w.pc.i].id);
    BacksCount(w.backs, pack[w.pc.i].id);
    hide Failures, TimesBack, ReadsEarlier;
    var step := pack[w.pc.i];
    if !MayRedo(step, attempts, w.pc.noData) && MayGoBack(step, w.backs, w.pc.noData) {
      var k := IndexOf(pack, step.backTo.value).value;
      assert k < w.pc.i && pack[k].id == step.backTo.value;
    }
  }

  /** From step `k` on, once the cost of the turn is paid: it is opened, or the user is asked for more budget. */
  predicate TakenUpFrom(pack: Pack, w: World, k: nat, cost: real, n: nat, backs: seq<string>) {
    && k < |pack|
    && (if CoversBoth(w.row, cost, pack[k].reserve)
        then GoesOnWith(pack, w, Driven(pack, w, n), k) && Driven(pack, w, n).backs == backs
        else WaitsFor(w, Driven(pack, w, n + 1), ToppingUp, Resource, "", false)
             && Driven(pack, w, n + 1).backs == backs)
  }

  /** The turn is paid for, and the task is as open as it was. */
  predicate Paid(w: World, s: World, cost: real) {
    && OnItsWay(s.row) && s.crashes == w.crashes && (w.row.limit.Some? ==> w.row.limit.value > 0.0)
    && s.row.attempt.None? && s.row.reserved == 0.0 && s.row.used == w.row.used + cost && s.row.limit == w.row.limit
    && |s.row.attempts| == |w.row.attempts| && s.row.interactions == w.row.interactions
  }

  lemma TakenUp(pack: Pack, w: World, m: nat, s: World, cost: real)
    requires PackOk(pack) && DriveInv(pack, s) && s == Driven(pack, w, m)
    requires s.pc.Requeue? && s.row.cursor < |pack| && Paid(w, s, cost)
    ensures TakenUpFrom(pack, w, s.row.cursor, cost, m + 3, s.backs)
  {
    hide PackOk, DriveInv, Driven, GoesOnWith, WaitsFor;
    RequeuesOn(pack, s);
    DrivenOn(pack, w, m, 3);
    DrivenOn(pack, w, m, 4);
    if CanReserve(s.row, pack[s.row.cursor].reserve) {
      SameStart(pack, s, w, Driven(pack, w, m + 3), s.row.cursor);
    } else {
      SameWait(s, w, Driven(pack, w, m + 4), ToppingUp, Resource, "", false);
    }
  }

  lemma AskedUser(pack: Pack, w: World, m: nat, s: World, cost: real)
    requires s == Driven(pack, w, m) && s.pc.AskUser? && s.pc.i < |pack| && Paid(w, s, cost)
    ensures WaitsFor(w, Driven(pack, w, m + 1), InputWanted, Input, pack[s.pc.i].id, false)
  {
    hide Driven, WaitsFor, Tick;
    AskTick(pack, s, InputWanted, Input, pack[s.pc.i].id, false);
    Once(pack, s);
    DrivenOn(pack, w, m, 1);
    SameWait(s, w, Driven(pack, w, m + 1), InputWanted, Input, pack[s.pc.i].id, false);
  }

  lemma RefusedIsJudged(pack: Pack, w: World)
    requires PackOk(pack) && TurnIsBack(pack, w) && RefusedTurn(w.row, w.pc.turn)
    ensures w.pc.i == w.row.cursor < |pack| && Failures(w.row.attempts, pack[w.pc.i].id) == w.pc.reworks
    ensures var z := Driven(pack, w, 2);
            && DriveInv(pack, z) && Paid(w, z, w.pc.turn.cost) && z.row.cursor == w.row.cursor && z.backs == w.backs
            && z.pc == Judged(w.pc.i, w.pc.a, w.pc.reworks, w.pc.turn.noData)
  {
    hide PackOk, DriveInv, Driven, Failures, Over, Paid, Reachable, After;
    assert Branching(w.row, w.pc.turn).Refused?;
    TurnSettles(pack, w);
    OverIsPaid(w, Driven(pack, w, 2), AttemptState.Failed, w.pc.turn.cost, Acceptance);
    ReachableKeeps(pack, w);
    InHandAtRead(pack, w);
  }

  /** What follows from a judged turn, told from the world `w` it came back in. */
  ghost predicate Followed(pack: Pack, w: World, i: nat, turn: Turn)
    requires i < |pack|
  {
    var step := pack[i];
    if MayRedo(step, w.row.attempts, turn.noData) then TakenUpFrom(pack, w, i, turn.cost, 6, w.backs)
    else if MayGoBack(step, w.backs, turn.noData) then
      exists k: nat :: k < i && pack[k].id == step.backTo.value
                       && TakenUpFrom(pack, w, k, turn.cost, 6, w.backs + [step.id])
    else WaitsFor(w, Driven(pack, w, 4), InputWanted, Input, step.id, false)
  }

  lemma JudgedIsFollowed(pack: Pack, w: World, z: World, i: nat, turn: Turn)
    requires PackOk(pack) && DriveInv(pack, z) && z == Driven(pack, w, 2) && z.pc.Judged? && i < |pack|
    requires z.pc.i == i == z.row.cursor && z.pc.noData == turn.noData && z.backs == w.backs
    requires Paid(w, z, turn.cost) && Failures(w.row.attempts, pack[i].id) == z.pc.reworks
    ensures Followed(pack, w, i, turn)
  {
    hide PackOk, DriveInv, Tick, Driven, Failures, WaitsFor, TakenUpFrom, MayRedo, MayGoBack;
    var step := pack[i];
    JudgeTick(pack, z, w.row.attempts);
    NextKeeps(pack, z, Act(true, ANY));
    Once(pack, z);
    DrivenOn(pack, w, 2, 1);
    var s := Driven(pack, w, 3);
    assert Paid(w, s, turn.cost);
    hide Paid;
    if MayRedo(step, w.row.attempts, turn.noData) {
      TakenUp(pack, w, 3, s, turn.cost);
    } else if MayGoBack(step, w.backs, turn.noData) {
      TakenUp(pack, w, 3, s, turn.cost);
    } else {
      AskedUser(pack, w, 3, s, turn.cost);
    }
  }

  /** After a turn of step `i` that did not pass: while it has failed no more often than it may, step `i` is opened
      again and nobody is asked; then, if it may still send the work back, the step it names is opened, and that it
      went back is on record; in every other case, and only then, the task waits for the user's decision on step
      `i`. Where the next reservation does not fit, the user is asked for more budget instead. */
  lemma AfterARefusedTurn(pack: Pack, w: World)
    requires PackOk(pack) && TurnIsBack(pack, w) && RefusedTurn(w.row, w.pc.turn)
    ensures w.pc.i == w.row.cursor < |pack| && Followed(pack, w, w.pc.i, w.pc.turn)
  {
    hide PackOk, DriveInv, Driven, Failures, RefusedTurn, Followed, Paid, Reachable;
    RefusedIsJudged(pack, w);
    JudgedIsFollowed(pack, w, Driven(pack, w, 2), w.pc.i, w.pc.turn);
  }

  // ---------- a turn that was accepted ----------

  /** The work came back whole and within the budget, nobody had called it off, and it passed. */
  predicate AcceptedTurn(row: Task, turn: Turn) {
    && !row.cancel && !turn.stopped && !turn.lost && !turn.failed && turn.accepted
    && (row.limit.Some? ==> row.used + turn.cost <= row.limit.value)
  }

  lemma AcceptedIsPaid(pack: Pack, w: World)
    requires PackOk(pack) && TurnIsBack(pack, w) && AcceptedTurn(w.row, w.pc.turn)
    ensures w.pc.i == w.row.cursor < |pack|
    ensures var (z, name) := (Driven(pack, w, 2), pack[w.pc.i].output);
            && DriveInv(pack, z) && Paid(w, z, w.pc.turn.cost) && z.row.cursor == w.row.cursor && z.backs == w.backs
            && z.pc == Advance(w.pc.i)
            && z.arts == w.arts[name := if name in w.arts then w.arts[name] + 1 else 1]
  {
    hide PackOk, DriveInv, Driven, Branching, Over, Paid, Reachable, After;
    OnlyGoodWorkIsAccepted(w.row, w.pc.turn);
    TurnSettles(pack, w);
    OverIsPaid(w, Driven(pack, w, 2), AttemptState.Completed, w.pc.turn.cost, NoCode);
  }

  lemma OverIsPaid(w: World, z: World, target: AttemptState, cost: real, failure: Failure)
    requires w.pc.Read? && Over(w.row, z.row, w.pc.a, target, cost, failure) && z.crashes == w.crashes
    requires OnItsWay(w.row) && (w.row.limit.Some? ==> w.row.limit.value > 0.0)
    ensures Paid(w, z, cost) && z.row.cursor == w.row.cursor
  {
  }

  lemma AdvanceTick(pack: Pack, w: World)
    requires w.pc.Advance?
    ensures Tick(pack, w, true, ANY)
         == w.(row := w.row.(cursor := w.row.cursor + 1, version := w.row.version + 1),
               pc := if w.row.cursor + 1 >= |pack| then File else Requeue)
  {
  }

  /** After the last step: the hand-back is filed, and the task succeeds. */
  lemma Filed(pack: Pack, w: World)
    requires w.pc.File? && OnItsWay(w.row)
    ensures var z := Driven(pack, w, 3);
            && z.pc.Idle? && z.crashes == w.crashes && z.row.state.Succeeded? && z.row.attempt.None?
            && z.row.interaction.None? && z.row.attempts == w.row.attempts && z.row.cursor == w.row.cursor
            && z.backs == w.backs && z.turns == w.turns
            && z.arts == w.arts[HANDBACK := if HANDBACK in w.arts then w.arts[HANDBACK] + 1 else 1]
  {
    hide SettleAs, Judge, OpenStep, CheckStep, Ask, MoveAttempt, Branching, AnsweredFirst;
    var s := Tick(pack, w, true, ANY);
    var u := Tick(pack, s, true, ANY);
    var z := Tick(pack, u, true, ANY);
    assert z.pc.Idle? && z.row.state.Succeeded? && z.row.attempt.None? && z.row.interaction.None?;
    assert (z.backs, z.turns, z.crashes) == (w.backs, w.turns, w.crashes);
    assert z.row.attempts == w.row.attempts && z.row.cursor == w.row.cursor && z.arts == s.arts;
    hide Tick;
    Twice(pack, w);
    Once(pack, u);
    DrivenOn(pack, w, 2, 1);
  }

  /** After a turn of step `i` that passed: what it handed back is the newest version of its output, and the step after
      it is opened, or, after the last one, the hand-back is filed and the task has succeeded. */
  lemma AfterAnAcceptedTurn(pack: Pack, w: World)
    requires PackOk(pack) && TurnIsBack(pack, w) && AcceptedTurn(w.row, w.pc.turn)
    ensures w.pc.i == w.row.cursor < |pack|
    ensures var (i, name) := (w.pc.i, pack[w.pc.i].output);
            && Driven(pack, w, 3).row.cursor == i + 1
            && Driven(pack, w, 3).arts == w.arts[name := if name in w.arts then w.arts[name] + 1 else 1]
            && if i + 1 < |pack| then TakenUpFrom(pack, w, i + 1, w.pc.turn.cost, 6, w.backs)
               else EndsAs(w, Driven(pack, w, 6), TaskState.Succeeded) && HANDBACK in Driven(pack, w, 6).arts
  {
    hide PackOk, DriveInv, Driven, Tick, TakenUpFrom, After, Reachable, AcceptedTurn;
    AcceptedIsPaid(pack, w);
    var z := Driven(pack, w, 2);
    AdvanceTick(pack, z);
    NextKeeps(pack, z, Act(true, ANY));
    Once(pack, z);
    DrivenOn(pack, w, 2, 1);
    var s := Driven(pack, w, 3);
    if w.pc.i + 1 < |pack| {
      TakenUp(pack, w, 3, s, w.pc.turn.cost);
    } else {
      Filed(pack, s);
      DrivenOn(pack, w, 3, 3);
    }
  }

  // ---------- the other ways a turn ends ----------

  lemma StopTick(pack: Pack, w: World)
    requires w.row.state.Queued? || w.row.state.Running?
    requires w.pc.CancelTask? || w.pc.FailTask? || w.pc.WaitEnvironment?
    ensures var z := Tick(pack, w, true, ANY);
            && z.pc.Idle? && (z.arts, z.backs, z.turns, z.crashes) == (w.arts, w.backs, w.turns, w.crashes)
            && z.row.attempts == w.row.attempts && z.row.cursor == w.row.cursor && z.row.limit == w.row.limit
            && (z.row.used, z.row.reserved) == (w.row.used, w.row.reserved)
            && (w.pc.CancelTask? ==> z.row.state.Cancelled? && z.row.attempt.None? && z.row.interaction.None?)
            && (w.pc.FailTask? ==> z.row.state.Failed? && z.row.attempt.None? && z.row.interaction.None?)
            && (w.pc.WaitEnvironment? ==>
                  && z.row.state.Waiting? && z.row.reason == Some(Environment) && z.row.cancel == w.row.cancel
                  && (z.row.attempt, z.row.interaction) == (w.row.attempt, w.row.interaction)
                  && z.row.interactions == w.row.interactions)
  {
    hide SettleAs, Judge, OpenStep, CheckStep, Ask, MoveAttempt, Branching, AnsweredFirst;
  }

  /** A turn that was called off ends the task as cancelled; one the user stopped leaves the decision to the user; one
      whose machine was lost waits for the machine; one that broke ends the task as failed. */
  lemma AfterABrokenTurn(pack: Pack, w: World)
    requires PackOk(pack) && TurnIsBack(pack, w)
    requires w.row.cancel || w.pc.turn.stopped || w.pc.turn.lost || w.pc.turn.failed
    ensures w.pc.i < |pack|
    ensures var (row, turn, z) := (w.row, w.pc.turn, Driven(pack, w, 3));
            if row.cancel then EndsAs(w, z, TaskState.Cancelled)
            else if turn.stopped then WaitsFor(w, z, InputWanted, Input, pack[w.pc.i].id, false)
            else if turn.lost then
              && z.pc.Idle? && z.crashes == w.crashes && z.row.state.Waiting? && z.row.reason == Some(Environment)
              && z.row.attempt.None? && z.row.interaction == w.row.interaction
              && z.row.cursor == w.row.cursor && z.row.limit == w.row.limit && !z.row.cancel
              && z.row.used == w.row.used + turn.cost && z.row.reserved == 0.0
            else EndsAs(w, z, TaskState.Failed)
  {
    assert var branch := Branching(w.row, w.pc.turn);
           if w.row.cancel then branch == Interrupted(false)
           else if w.pc.turn.stopped then branch == StoppedByUser
           else if w.pc.turn.lost then branch == Lost
           else branch == Errored;
    hide PackOk, DriveInv, Driven, Tick, WaitsFor, After, Reachable, Branching;
    TurnSettles(pack, w);
    var z := Driven(pack, w, 2);
    Once(pack, z);
    DrivenOn(pack, w, 2, 1);
    if z.pc.AskUser? {
      AskTick(pack, z, InputWanted, Input, pack[w.pc.i].id, false);
      SameWait(z, w, Tick(pack, z, true, ANY), InputWanted, Input, pack[w.pc.i].id, false);
    } else {
      StopTick(pack, z);
    }
  }

  // ---------- a turn that cost too much ----------

  lemma Overspends(row: Task, a: nat, cost: Amount)
    requires RowInv(row) && (row.state.Queued? || row.state.Running?) && a < |row.attempts|
    requires row.attempts[a].status.Running? && row.limit.Some? && row.limit.value > 0.0
    ensures var r := MoveAttempt(row, a, AttemptState.BudgetExceeded, cost, NoCode, None);
            && r.Ok? && r.value.state.Waiting? && r.value.reason == Some(Resource) && r.value.attempt.None?
            && r.value.used == row.used + cost && r.value.reserved == 0.0 && r.value.limit == row.limit
            && |r.value.attempts| == |row.attempts| && r.value.attempts[a].status.BudgetExceeded?
            && r.value.interactions
               == row.interactions + [Interaction(ToppingUp, Pending, r.value.version, "", false)]
            && r.value.interaction == Some(|row.interactions|)
  {
    hide Booked, WithinLimit, OneWait, CappedWait, GaveBack;
    MovedIs(row, a, AttemptState.BudgetExceeded, cost, NoCode, None);
    ChargeIsExact(row, a, AttemptState.BudgetExceeded, cost);
  }

  lemma OverspentTick(pack: Pack, s: World)
    requires s.pc.Settle? && s.pc.i < |pack| && s.pc.branch.Overspent?
    requires MoveAttempt(s.row, s.pc.a, AttemptState.BudgetExceeded, s.pc.turn.cost, NoCode, None).Ok?
    ensures Tick(pack, s, true, ANY)
         == s.(row := MoveAttempt(s.row, s.pc.a, AttemptState.BudgetExceeded, s.pc.turn.cost, NoCode, None).value,
               pc := Idle)
  {
    hide MoveAttempt;
  }

  /** A turn that came back whole but cost more than is left is charged in full, and the user is asked for budget. */
  lemma AfterAnOverspentTurn(pack: Pack, w: World)
    requires PackOk(pack) && TurnIsBack(pack, w)
    requires !w.row.cancel && !w.pc.turn.stopped && !w.pc.turn.lost && !w.pc.turn.failed
    requires w.row.limit.Some? && w.row.used + w.pc.turn.cost > w.row.limit.value
    ensures var z := Driven(pack, w, 2);
            && WaitsFor(w, z, ToppingUp, Resource, "", false)
            && z.row.used == w.row.used + w.pc.turn.cost && z.row.reserved == 0.0
  {
    assert Branching(w.row, w.pc.turn).Overspent?;
    hide PackOk, DriveInv, Driven, Tick, After, Reachable, Branching, MoveAttempt, RowInv;
    ReachableKeeps(pack, w);
    InHandAtRead(pack, w);
    Overspends(w.row, w.pc.a, w.pc.turn.cost);
    ReadTick(pack, w);
    OverspentTick(pack, Tick(pack, w, true, ANY));
    Twice(pack, w);
  }

  // ---------- a machine that comes back ----------

  /** Whoever drives a queued task opens the step at its cursor, or asks for more budget. */
  lemma DriveOn(pack: Pack, w: World)
    requires PackOk(pack) && DriveInv(pack, w) && w.pc.Idle? && OnItsWay(w.row) && w.row.cursor < |pack|
    requires w.row.attempt.None? && (w.row.limit.Some? ==> w.row.limit.value > 0.0)
    ensures var d := Next(pack, w, Drive);
            if CanReserve(w.row, pack[w.row.cursor].reserve)
            then GoesOnWith(pack, w, Driven(pack, d, 3), w.row.cursor)
            else WaitsFor(w, Driven(pack, d, 4), ToppingUp, Resource, "", false)
  {
    hide PackOk, DriveInv, Driven, GoesOnWith, WaitsFor;
    var d := Next(pack, w, Drive);
    NextKeeps(pack, w, Drive);
    var s := Tick(pack, d, true, ANY);
    NextKeeps(pack, d, Act(true, ANY));
    assert s == d.(pc := Check);
    hide Tick;
    ChecksOn(pack, s);
    Once(pack, d);
    DrivenOn(pack, d, 1, 2);
    DrivenOn(pack, d, 1, 3);
    if CanReserve(w.row, pack[w.row.cursor].reserve) {
      SameStart(pack, s, w, Driven(pack, d, 3), w.row.cursor);
    } else {
      SameWait(s, w, Driven(pack, d, 4), ToppingUp, Resource, "", false);
    }
  }

  /** A machine makes a difference to a task only when it is online, and the task waits for it and for nothing else. */
  lemma MachineIsAwaited(pack: Pack, w: World, online: bool)
    ensures Next(pack, w, Meanwhile(EnvironmentBack(online))) == w
       <==> || !online || w.row.reason != Some(Environment) || !w.row.state.Waiting?
            || w.row.cancel || w.row.attempt.Some? || w.row.interaction.Some?
  {
  }

  /** A task that waits for its machine is queued when the machine is back, and the next drive opens the step at its
      cursor, if the budget allows. */
  lemma MachineComesBack(pack: Pack, w: World)
    requires PackOk(pack) && Reachable(pack, w) && w.pc.Idle? && w.row.cursor < |pack| && !w.row.cancel
    requires w.row.state.Waiting? && w.row.reason == Some(Environment) && w.row.attempt.None? && w.row.interaction.None?
    requires w.row.limit.Some? ==> w.row.limit.value > 0.0
    ensures var b := Next(pack, w, Meanwhile(EnvironmentBack(true)));
            && b.row.state.Queued? && b.resumes == w.resumes + 1
            && var d := Next(pack, b, Drive);
            if CanReserve(w.row, pack[w.row.cursor].reserve)
            then GoesOnWith(pack, w, Driven(pack, d, 3), w.row.cursor)
            else WaitsFor(w, Driven(pack, d, 4), ToppingUp, Resource, "", false)
  {
    hide PackOk, DriveInv, Driven, Tick, GoesOnWith, WaitsFor, After, Reachable;
    ReachableKeeps(pack, w);
    NextKeeps(pack, w, Meanwhile(EnvironmentBack(true)));
    var b := Next(pack, w, Meanwhile(EnvironmentBack(true)));
    DriveOn(pack, b);
    var d := Next(pack, b, Drive);
    if CanReserve(w.row, pack[w.row.cursor].reserve) {
      SameStart(pack, b, w, Driven(pack, d, 3), w.row.cursor);
    } else {
      SameWait(b, w, Driven(pack, d, 4), ToppingUp, Resource, "", false);
    }
  }

  // ---------- the start ----------

  lemma FirstSteps(pack: Pack, w: World, d: World, d2: World, s: World)
    requires HandedOver(w) && d == Next(pack, w, Drive)
    requires d2 == Tick(pack, Tick(pack, d, true, ANY), true, ANY)
    requires s == Tick(pack, Tick(pack, d2, true, ANY), true, ANY)
    ensures d2.pc.Admit? && d2.row == w.row.(state := TaskState.Validating, version := 1)
    ensures s.pc.Check? && s.row == w.row.(state := TaskState.Queued, version := 3) && s.crashes == 0
    ensures EndsAs(w, Tick(pack, d2, false, ANY), TaskState.Rejected)
  {
    hide SettleAs, Judge, OpenStep, CheckStep, Ask, MoveAttempt, Branching;
  }

  /** A task just handed over and admitted by its pack comes to its first step, or is asked about budget; one that no
      pack takes is rejected. */
  lemma FreshTaskStarts(pack: Pack, w: World)
    requires PackOk(pack) && HandedOver(w)
    ensures var d := Next(pack, w, Drive);
            && (if w.row.limit.Some? ==> pack[0].reserve <= w.row.limit.value
                then GoesOnWith(pack, w, Driven(pack, d, 6), 0)
                else WaitsFor(w, Driven(pack, d, 7), ToppingUp, Resource, "", false))
            && EndsAs(w, Tick(pack, Driven(pack, d, 2), false, ANY), TaskState.Rejected)
  {
    assert |pack| > 0;
    hide PackOk, DriveInv, GoesOnWith, WaitsFor, Tick, Driven, EndsAs;
    FreshInv(pack, w);
    var d := Next(pack, w, Drive);
    NextKeeps(pack, w, Drive);
    DrivenKeeps(pack, d, 4);
    var d2 := Tick(pack, Tick(pack, d, true, ANY), true, ANY);
    var s := Tick(pack, Tick(pack, d2, true, ANY), true, ANY);
    FirstSteps(pack, w, d, d2, s);
    var (begun, asked) := (Driven(pack, d, 6), Driven(pack, d, 7));
    Twice(pack, d);
    Twice(pack, d2);
    DrivenOn(pack, d, 2, 2);
    ChecksOn(pack, s);
    DrivenOn(pack, d, 4, 2);
    DrivenOn(pack, d, 4, 3);
    if CanReserve(s.row, pack[0].reserve) {
      SameStart(pack, s, w, begun, 0);
    } else {
      SameWait(s, w, asked, ToppingUp, Resource, "", false);
    }
  }

  // ---------- a step that asks first ----------

  /** The questions of a step have been answered. */
  predicate HasAnswered(row: Task, id: string) {
    exists asked :: asked in row.interactions && asked.kind == Question && asked.askBefore && asked.step == id
                    && asked.status == Status.Consumed
  }

  lemma AnsweredIsHasAnswered(row: Task, id: string)
    ensures AnsweredFirst(row, id) <==> HasAnswered(row, id)
  {
    if HasAnswered(row, id) {
      var asked :| asked in row.interactions && asked.kind == Question && asked.askBefore && asked.step == id
                   && asked.status == Status.Consumed;
      var k :| 0 <= k < |row.interactions| && row.interactions[k] == asked;
    }
  }

  lemma InHandAtBegan(pack: Pack, w: World)
    requires DriveInv(pack, w) && w.pc.Began?
    ensures var Began(i, a, reworks) := w.pc;
            i == w.row.cursor < |pack| && a + 1 == |w.row.attempts| && w.row.attempts[a].status.Created?
    ensures RowInv(w.row)
  {
  }

  lemma Withdraws(row: Task, a: nat)
    requires RowInv(row) && Open(row) && a < |row.attempts| && row.attempts[a].status.Created?
    requires row.limit.Some? ==> row.limit.value > 0.0
    ensures var r := MoveAttempt(row, a, AttemptState.Cancelled, 0.0, AskedFirst, None);
            r.Ok? && Over(row, r.value, a, AttemptState.Cancelled, 0.0, AskedFirst)
  {
    hide Booked, WithinLimit, OneWait, CappedWait, GaveBack;
    MovedIs(row, a, AttemptState.Cancelled, 0.0, AskedFirst, None);
    ChargeIsExact(row, a, AttemptState.Cancelled, 0.0);
  }

  lemma Begins(row: Task, a: nat)
    requires RowInv(row) && Open(row) && a < |row.attempts| && row.attempts[a].status.Created?
    requires row.limit.Some? ==> row.limit.value > 0.0
    ensures var r := MoveAttempt(row, a, AttemptState.Running, 0.0, NoCode, None);
            && r.Ok? && |r.value.attempts| == |row.attempts| && r.value.attempts[a].status.Running?
            && r.value.attempt == row.attempt && (r.value.used, r.value.reserved) == (row.used, row.reserved)
            && (r.value.state, r.value.cancel, r.value.cursor) == (row.state, row.cancel, row.cursor)
  {
    hide Booked, WithinLimit, OneWait, CappedWait, GaveBack;
    MovedIs(row, a, AttemptState.Running, 0.0, NoCode, None);
    ChargeIsExact(row, a, AttemptState.Running, 0.0);
  }

  lemma BeganTick(pack: Pack, w: World)
    requires w.pc.Began? && w.pc.i < |pack|
    ensures var (i, a, reworks) := (w.pc.i, w.pc.a, w.pc.reworks);
            Tick(pack, w, true, ANY)
            == if pack[i].asksBefore && !AnsweredFirst(w.row, pack[i].id) then w.(pc := Unask(i, a))
               else w.(pc := InTurn(i, a, reworks), turns := w.turns + 1)
  {
    hide AnsweredFirst;
  }

  lemma MoveTick(pack: Pack, w: World, turn: Turn)
    requires w.pc.Unask? || w.pc.InTurn?
    requires MoveAttempt(w.row, w.pc.a, AttemptState.Cancelled, 0.0, AskedFirst, None).Ok?
    requires MoveAttempt(w.row, w.pc.a, AttemptState.Running, 0.0, NoCode, None).Ok?
    ensures Tick(pack, w, true, turn)
         == if w.pc.Unask? then
              w.(row := MoveAttempt(w.row, w.pc.a, AttemptState.Cancelled, 0.0, AskedFirst, None).value,
                 pc := AskFirst(w.pc.i))
            else
              w.(row := MoveAttempt(w.row, w.pc.a, AttemptState.Running, 0.0, NoCode, None).value,
                 pc := Read(w.pc.i, w.pc.a, w.pc.reworks, turn))
  {
    hide MoveAttempt;
  }

  /** A step that has questions nobody has answered withdraws its attempt, unused, and the task waits for the answers;
      any other begins its turn, and what the turn brings is what is looked at next. */
  lemma BeforeTheTurn(pack: Pack, w: World, turn: Turn)
    requires PackOk(pack) && Reachable(pack, w) && w.pc.Began? && (w.row.state.Running? || w.row.state.Queued?)
    requires w.row.limit.Some? ==> w.row.limit.value > 0.0
    ensures w.pc.i < |pack|
    ensures var (i, a) := (w.pc.i, w.pc.a);
            if pack[i].asksBefore && !HasAnswered(w.row, pack[i].id) then
              var z := Driven(pack, w, 3);
              && WaitsFor(w, z, Question, Input, pack[i].id, true) && z.turns == w.turns
              && z.row.used == w.row.used && z.row.reserved == 0.0
              && a < |z.row.attempts| && z.row.attempts[a].status.Cancelled?
            else
              var z := Tick(pack, Driven(pack, w, 1), true, turn);
              && z.turns == w.turns + 1 && z.pc == Read(i, a, w.pc.reworks, turn)
              && a < |z.row.attempts| && z.row.attempts[a].status.Running? && z.row.attempt == w.row.attempt
  {
    hide PackOk, DriveInv, Driven, Tick, After, Reachable, AnsweredFirst, HasAnswered, MoveAttempt, RowInv, WaitsFor;
    ReachableKeeps(pack, w);
    InHandAtBegan(pack, w);
    var Began(i, a, reworks) := w.pc;
    AnsweredIsHasAnswered(w.row, pack[i].id);
    BeganTick(pack, w);
    Once(pack, w);
    Withdraws(w.row, a);
    Begins(w.row, a);
    var s := Driven(pack, w, 1);
    MoveTick(pack, s, turn);
    if s.pc.Unask? {
      MoveTick(pack, s, ANY);
      var u := Tick(pack, s, true, ANY);
      Twice(pack, w);
      AskTick(pack, u, Question, Input, pack[i].id, true);
      AskChangesNoMoney(pack, u);
      Once(pack, u);
      DrivenOn(pack, w, 2, 1);
      SameWait(u, w, Driven(pack, w, 3), Question, Input, pack[i].id, true);
    }
  }

  lemma AskChangesNoMoney(pack: Pack, w: World)
    requires w.pc.AskFirst?
    ensures var z := Tick(pack, w, true, ANY);
            (z.row.used, z.row.reserved, z.row.attempts) == (w.row.used, w.row.reserved, w.row.attempts)
  {
  }

  /** Once answered, the step is opened again and its turn begins; it is not asked twice. */
  lemma AnswersAreTaken(pack: Pack, w: World)
    requires PackOk(pack) && Reachable(pack, w) && w.pc.Idle? && w.row.cursor < |pack| && !w.row.cancel
    requires w.row.state.Waiting? && w.row.attempt.None? && (w.row.limit.Some? ==> w.row.limit.value > 0.0)
    requires var n := |w.row.interactions| - 1;
             && n >= 0 && w.row.interaction == Some(n)
             && w.row.interactions[n]
                == Interaction(Question, Pending, w.row.version, pack[w.row.cursor].id, true)
    requires CanReserve(w.row, pack[w.row.cursor].reserve)
    ensures var answer := Answered(|w.row.interactions| - 1, Ticket(true, true, true), Other);
            var d := Next(pack, Next(pack, w, Meanwhile(answer)), Drive);
            Driven(pack, d, 4).pc.InTurn? && Driven(pack, d, 4).pc.i == w.row.cursor
            && Driven(pack, d, 4).turns == Driven(pack, d, 3).turns + 1
  {
    hide PackOk, DriveInv, Driven, Tick, After, Reachable, WaitsFor, AnsweredFirst;
    ReachableKeeps(pack, w);
    var n := |w.row.interactions| - 1;
    var answer := Answered(n, Ticket(true, true, true), Other);
    var b := Next(pack, w, Meanwhile(answer));
    NextKeeps(pack, w, Meanwhile(answer));
    assert b.row.state.Queued? && b.row.interactions == w.row.interactions[n := b.row.interactions[n]];
    assert b.row.interactions[n].status.Consumed?;
    DriveOn(pack, b);
    var d := Next(pack, b, Drive);
    var z := Driven(pack, d, 3);
    assert AnsweredFirst(z.row, pack[w.row.cursor].id) by {
      assert z.row.interactions[n] == b.row.interactions[n];
      AnsweredIsHasAnswered(z.row, pack[w.row.cursor].id);
      assert z.row.interactions[n] in z.row.interactions;
    }
    BeganTick(pack, z);
    Once(pack, z);
    DrivenOn(pack, d, 3, 1);
  }

  // ---------- a cancel seen before a step ----------

  /** A task somebody asked to cancel is cancelled at the head of its next step, and no attempt opens. */
  lemma CancelIsSeen(pack: Pack, w: World)
    requires w.pc.Check? && (w.row.state.Queued? || w.row.state.Running?) && w.row.cancel
    ensures EndsAs(w, Driven(pack, w, 2), TaskState.Cancelled) && Driven(pack, w, 2).turns == w.turns
  {
    hide SettleAs, Judge, OpenStep, Ask, MoveAttempt, Branching, AnsweredFirst, Inputs, Failures, Driven;
    var s := Tick(pack, w, true, ANY);
    assert s == w.(pc := CancelTask);
    hide Tick;
    StopTick(pack, s);
    Twice(pack, w);
  }
}
