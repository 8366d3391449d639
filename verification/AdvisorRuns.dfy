/** What holds of a task over its whole life, whatever the turns bring, the users answer and the processes do. */
module AdvisorRuns {
  import opened Prelude
  import opened States
  import opened TaskRows
  import opened RowProofs
  import opened Packs
  import opened AdvisorSpec
  import opened AdvisorWork
  import opened AdvisorFlow
  import opened AdvisorBounds

  /** A state that can come about: a task handed over, and then any events at all. */
  ghost predicate Reachable(pack: Pack, w: World) {
    exists start: World, events: seq<Event> :: HandedOver(start) && After(pack, start, events) == w
  }

  lemma ReachableKeeps(pack: Pack, w: World)
    requires PackOk(pack) && Reachable(pack, w)
    ensures DriveInv(pack, w)
  {
    hide HandedOver, After, DriveInv, PackOk;
    var start: World, events: seq<Event> :| HandedOver(start) && After(pack, start, events) == w;
    FreshInv(pack, start);
    EveryDriveKeeps(pack, start, events);
  }

  lemma {:induction false} AfterMore(pack: Pack, w: World, events: seq<Event>, e: Event)
    ensures After(pack, w, events + [e]) == Next(pack, After(pack, w, events), e)
    decreases |events|
  {
    hide Next;
    if events == [] {
      assert After(pack, Next(pack, w, e), []) == Next(pack, w, e);
      assert ([e] + [])[1..] == [];
      assert events + [e] == [e];
    } else {
      assert (events + [e])[1..] == events[1..] + [e];
      AfterMore(pack, Next(pack, w, events[0]), events[1..], e);
    }
  }

  lemma OneMoreReachable(pack: Pack, w: World, e: Event)
    requires Reachable(pack, w)
    ensures Reachable(pack, Next(pack, w, e))
  {
    hide HandedOver, After, Next;
    var start: World, events: seq<Event> :| HandedOver(start) && After(pack, start, events) == w;
    AfterMore(pack, start, events, e);
    assert After(pack, start, events + [e]) == Next(pack, w, e);
  }

  // ---------- turns ----------

  /** At most n(1+B)+R turns, plus one for every resume from WAITING and every restart after a crash. */
  lemma TurnsAreBounded(pack: Pack, w: World)
    requires PackOk(pack) && Reachable(pack, w)
    ensures w.turns <= MaxTurns(pack) + w.resumes + w.crashes
  {
    ReachableKeeps(pack, w);
    BoundHolds(pack, w);
  }

  // ---------- inputs ----------

  /** The accepted work of step `i`. */
  function Done(pack: Pack, w: World, i: nat): Attempt
    requires i < |pack| && LastOf(w.row.attempts, pack[i].id).Some?
  {
    w.row.attempts[LastOf(w.row.attempts, pack[i].id).value]
  }

  lemma {:induction false} InputsAreNewest(refs: seq<string>, arts: map<string, nat>)
    requires Inputs(refs, arts).Some?
    ensures |Inputs(refs, arts).value| == |refs|
    ensures forall k :: 0 <= k < |refs| ==> refs[k] in arts && Inputs(refs, arts).value[k] == (refs[k], arts[refs[k]])
  {
    if refs != [] {
      InputsAreNewest(refs[..|refs| - 1], arts);
    }
  }

  /** Before the cursor nothing is stale: the newest attempt of every step is accepted, it read exactly what
      the newest attempts of the steps it reads from handed back, and nobody has handed back anything since. */
  lemma NoStaleInputs(pack: Pack, w: World, i: nat)
    requires PackOk(pack) && Reachable(pack, w) && i < w.row.cursor
    ensures i < |pack| && LastOf(w.row.attempts, pack[i].id).Some?
    ensures var done := Done(pack, w, i);
            && done.status.Completed? && |done.inputs| == |pack[i].inputRefs|
            && done.output.Some? && done.output.value.0 == pack[i].output
            && forall k :: 0 <= k < |done.inputs| ==>
                             exists j :: 0 <= j < i && LastOf(w.row.attempts, pack[j].id).Some?
                                         && pack[j].output == pack[i].inputRefs[k]
                                         && Done(pack, w, j).output == Some(done.inputs[k])
  {
    ReachableKeeps(pack, w);
    assert UpToDate(pack, w, i);
    var done := Done(pack, w, i);
    InputsAreNewest(pack[i].inputRefs, w.arts);
    forall k | 0 <= k < |done.inputs|
      ensures exists j :: 0 <= j < i && LastOf(w.row.attempts, pack[j].id).Some?
                          && pack[j].output == pack[i].inputRefs[k]
                          && Done(pack, w, j).output == Some(done.inputs[k])
    {
      assert ReadsEarlier(pack, i) && pack[i].inputRefs[k] in pack[i].inputRefs;
      assert Provided(pack, i, pack[i].inputRefs[k]);
      var j :| 0 <= j < i && j < |pack| && pack[j].output == pack[i].inputRefs[k];
      assert UpToDate(pack, w, j);
    }
  }

  /** A task that succeeded has every step accepted, on one consistent set of versions. */
  lemma SuccessIsWhole(pack: Pack, w: World)
    requires PackOk(pack) && Reachable(pack, w) && w.row.state.Succeeded?
    ensures w.row.cursor == |pack|
    ensures forall i :: 0 <= i < |pack| ==> UpToDate(pack, w, i)
  {
    ReachableKeeps(pack, w);
  }

  /** The driver never finds an input missing. */
  lemma NothingIsMissing(pack: Pack, w: World)
    requires PackOk(pack) && Reachable(pack, w) && w.row.cursor < |pack|
    ensures Inputs(pack[w.row.cursor].inputRefs, w.arts).Some?
  {
    ReachableKeeps(pack, w);
    InputsAreThere(pack, w);
  }

  lemma InputsAreThere(pack: Pack, w: World)
    requires PackOk(pack) && DriveInv(pack, w) && w.row.cursor < |pack|
    ensures Inputs(pack[w.row.cursor].inputRefs, w.arts).Some?
  {
    var i := w.row.cursor;
    forall name | name in pack[i].inputRefs ensures name in w.arts {
      assert ReadsEarlier(pack, i) && Provided(pack, i, name);
      var j :| 0 <= j < i && j < |pack| && pack[j].output == name;
      assert UpToDate(pack, w, j);
    }
    AllThere(pack[i].inputRefs, w.arts);
  }

  lemma {:induction false} AllThere(refs: seq<string>, arts: map<string, nat>)
    requires forall name :: name in refs ==> name in arts
    ensures Inputs(refs, arts).Some?
  {
    if refs != [] {
      AllThere(refs[..|refs| - 1], arts);
      assert refs[|refs| - 1] in refs;
    }
  }

  // ---------- money ----------

  /** A driven task keeps the ledger's invariant without any promise from outside: what it has reserved is
      the unspent part of its live attempt, its columns equal its journal, its overspend is one attempt. */
  lemma MoneyHolds(pack: Pack, w: World)
    requires PackOk(pack) && Reachable(pack, w)
    ensures RowInv(w.row)
  {
    ReachableKeeps(pack, w);
  }

  lemma UncappedStays(pack: Pack, w: World, e: Event)
    requires PackOk(pack) && DriveInv(pack, w) && w.row.limit.None?
    ensures Next(pack, w, e).row.limit.None?
  {
    match e {
      case Act(admitted, turn) => UncappedTick(pack, w, admitted, turn);
      case Meanwhile(other) => UncappedOther(w.row, other);
      case _ =>
    }
  }

  lemma UncappedOther(row: Task, other: Other)
    requires CappedWait(row) && row.limit.None?
    ensures RowAfter(row, other).limit.None?
  {
    match other {
      case Answered(i, ticket, decision) =>
        if Answer(row, i, ticket, decision, TaskState.Queued).Ok? {
          assert !row.interactions[i].kind.ToppingUp?;
        }
      case _ =>
    }
  }

  lemma UncappedTick(pack: Pack, w: World, admitted: bool, turn: Turn)
    requires w.row.limit.None?
    ensures Tick(pack, w, admitted, turn).row.limit.None?
  {
    hide TaskMoves, Failures, Inputs;
    if w.pc.Settle? && w.pc.i < |pack| {
      UncappedSettle(pack, w);
    }
  }

  lemma UncappedSettle(pack: Pack, w: World)
    requires w.row.limit.None? && w.pc.Settle? && w.pc.i < |pack|
    ensures SettleAs(pack, w).row.limit.None?
  {
    hide MoveAttempt;
    forall a: nat, target: AttemptState, cost: Amount, failure: Failure, output: Option<(string, nat)>
      ensures MoveAttempt(w.row, a, target, cost, failure, output).Ok? ==>
                MoveAttempt(w.row, a, target, cost, failure, output).value.limit.None?
    {
      if MoveAttempt(w.row, a, target, cost, failure, output).Ok? {
        MovedState(w.row, a, target, cost, failure, output);
      }
    }
  }

  lemma {:induction false} UncappedForever(pack: Pack, w: World, events: seq<Event>)
    requires PackOk(pack) && DriveInv(pack, w) && w.row.limit.None?
    ensures After(pack, w, events).row.limit.None?
    decreases |events|
  {
    hide DriveInv, Next;
    if events != [] {
      UncappedStays(pack, w, events[0]);
      NextKeeps(pack, w, events[0]);
      UncappedForever(pack, Next(pack, w, events[0]), events[1..]);
    }
  }

  /** A task without a limit is never stopped for budget, in any run. */
  lemma NoLimitNoBudgetStop(pack: Pack, start: World, events: seq<Event>)
    requires PackOk(pack) && HandedOver(start) && start.row.limit.None?
    ensures var row := After(pack, start, events).row;
            && row.limit.None? && row.reason != Some(Resource)
            && forall i :: 0 <= i < |row.interactions| ==> !row.interactions[i].kind.ToppingUp?
  {
    FreshInv(pack, start);
    UncappedForever(pack, start, events);
    EveryDriveKeeps(pack, start, events);
  }

  // ---------- what counts as done ----------

  /** A turn's work is taken over exactly if nobody had asked to cancel, nobody stopped it, it came back whole,
      it passed the acceptance rules, and its cost fits what is left of the limit. */
  lemma OnlyGoodWorkIsAccepted(row: Task, turn: Turn)
    ensures Branching(row, turn).Accepted?
       <==> && !row.cancel && !turn.stopped && !turn.lost && !turn.failed && turn.accepted
            && (row.limit.Some? ==> row.used + turn.cost <= row.limit.value)
    ensures Branching(row, turn).Interrupted? <==> row.cancel
    ensures Branching(row, turn).Overspent? ==> row.limit.Some? && row.used + turn.cost > row.limit.value
  {
  }

  // ---------- where a drive stops ----------

  predicate AtRest(row: Task) {
    Terminal(row.state) || row.state.Waiting?
  }

  lemma SettlingRests(pack: Pack, w: World)
    requires Placed(pack, w) && w.pc.Settle? && w.pc.i < |pack|
    requires SettleAs(pack, w).pc.Idle? && SettleAs(pack, w).crashes == w.crashes
    ensures AtRest(SettleAs(pack, w).row)
  {
    hide MoveAttempt;
    var Settle(i, a, reworks, turn, branch) := w.pc;
    var (target, failure) := SettledAs(branch);
    var r := MoveAttempt(w.row, a, target, turn.cost, failure, None);
    if r.Ok? {
      MovedState(w.row, a, target, turn.cost, failure, None);
    }
  }

  /** A drive that does not raise leaves the task finished, or waiting for somebody. */
  lemma DriveEndsAtRest(pack: Pack, w: World, admitted: bool, turn: Turn)
    requires Placed(pack, w) && !w.pc.Idle?
    requires var after := Tick(pack, w, admitted, turn); after.pc.Idle? && after.crashes == w.crashes
    ensures AtRest(Tick(pack, w, admitted, turn).row)
  {
    if w.pc.Settle? {
      hide SettleAs;
      SettlingRests(pack, w);
    } else {
      hide MoveAttempt, OpenAttempt, Inputs, Failures, TaskMoves, Judge, SettleAs;
    }
  }
}
