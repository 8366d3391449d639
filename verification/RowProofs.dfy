/** What every transaction keeps of a task row: one live attempt, money that adds up, one wait at a time. */
module RowProofs {
  import opened Prelude
  import opened States
  import opened TaskRows

  // ---------- the invariants ----------

  /** On an open task the attempt in progress is the newest one, and no other attempt is unfinished. */
  ghost predicate OneLive(row: Task) {
    && (row.attempt.Some? ==> row.attempt.value < |row.attempts|)
    && (Open(row) ==>
          && (row.attempt.Some? ==> row.attempt.value == |row.attempts| - 1)
          && forall a :: 0 <= a < |row.attempts| ==>
                           (!Ended(row.attempts[a].status) <==> row.attempt == Some(a)))
  }

  function ConsumedBy(row: Task, a: nat): Amount {
    if a < |row.attempts| then row.attempts[a].consumed else 0.0
  }

  function GrantedTo(row: Task, a: nat): Amount {
    if a < |row.attempts| then row.attempts[a].granted else 0.0
  }

  /** The part of its reservation an attempt has not used. */
  function Unspent(row: Task, a: nat): Amount {
    Pos(GrantedTo(row, a) - ConsumedBy(row, a))
  }

  predicate Finished(row: Task, a: nat) {
    a < |row.attempts| && Ended(row.attempts[a].status)
  }

  ghost predicate AttemptBooked(row: Task, a: nat) {
    && ConsumedBy(row, a) == TotalOf(row.journal, Consume, a)
    && GrantedTo(row, a) == TotalOf(row.journal, Reserve, a)
  }

  /** The snapshot columns equal the journal, for open and finished tasks alike. */
  ghost predicate Booked(row: Task) {
    && row.used == Total(row.journal, Consume)
    && Total(row.journal, Topup) == (if row.limit.Some? then row.limit.value else 0.0)
    && forall a: nat {:trigger AttemptBooked(row, a)} :: AttemptBooked(row, a)
  }

  /** The release lines of an attempt are exactly its unspent part once it has finished, and none before. */
  ghost predicate GaveBack(row: Task, a: nat) {
    TotalOf(row.journal, EntryKind.Release, a) == if Finished(row, a) then Unspent(row, a) else 0.0
  }

  /** On an open task the reservation is the live attempt's unspent part, or nothing. */
  ghost predicate Conserved(row: Task) {
    && row.reserved >= 0.0
    && (Open(row) ==>
          && row.reserved == (if row.attempt.Some? then Unspent(row, row.attempt.value) else 0.0)
          && forall a: nat {:trigger GaveBack(row, a)} :: GaveBack(row, a))
  }

  function LastConsumed(row: Task): Amount {
    if row.attempts == [] then 0.0 else row.attempts[|row.attempts| - 1].consumed
  }

  /** A capped open task overspends by at most its newest attempt, apart from negative top-ups. */
  ghost predicate WithinLimit(row: Task) {
    Open(row) && row.limit.Some? ==> row.used <= row.limit.value + LastConsumed(row) + TakenOut(row.journal)
  }

  /** A row waits for at most one interaction, and every pending interaction is the one it waits for. */
  ghost predicate OneWait(row: Task) {
    && (row.interaction.Some? ==>
          && row.state.Waiting?
          && row.interaction.value < |row.interactions|
          && (var s := row.interactions[row.interaction.value].status; s.Pending? || s.Expired?))
    && forall i :: 0 <= i < |row.interactions| ==>
                     && row.interactions[i].target <= row.version
                     && (row.interactions[i].status.Pending? ==> row.interaction == Some(i))
  }

  /** Only a capped task is ever asked for more budget. */
  ghost predicate CappedWait(row: Task) {
    row.limit.None? ==>
      && row.reason != Some(Resource)
      && forall i :: 0 <= i < |row.interactions| ==> !row.interactions[i].kind.ToppingUp?
  }

  ghost predicate RowInv(row: Task) {
    OneLive(row) && Booked(row) && Conserved(row) && WithinLimit(row) && OneWait(row) && CappedWait(row)
  }

  /** A row as handover inserts it. */
  function NewTask(session: nat, project: nat, key: nat, digest: nat, limit: Option<real>, tagged: bool): Task {
    Task(session, project, key, digest, TaskState.Received, 0, 0, None, None, None, limit, 0.0, 0.0, false, tagged,
         [], [], if limit.Some? then [Entry(Topup, None, limit.value)] else [])
  }

  lemma NewTaskInv(row: Task, session: nat, project: nat, key: nat, digest: nat, limit: Option<real>, tagged: bool)
    requires limit.Some? ==> limit.value > 0.0
    requires row == NewTask(session, project, key, digest, limit, tagged)
    ensures RowInv(row)
  {
    forall a: nat ensures AttemptBooked(row, a) && GaveBack(row, a) {
    }
  }

  // ---------- every transaction keeps them ----------

  /** Nobody takes a waiting task out of its wait while an interaction is open, except to end it,
      and nobody waits for budget without a limit. */
  predicate Considerate(row: Task, target: TaskState, reason: Option<WaitingReason>) {
    && (row.state.Waiting? && !Terminal(target) ==> row.interaction.None?)
    && (reason == Some(Resource) ==> row.limit.Some?)
  }

  /** A write that leaves the money columns, the attempts and the journal alone keeps the accounts. */
  lemma MoneyFrame(row: Task, after: Task)
    requires Booked(row) && Conserved(row) && WithinLimit(row)
    requires after.attempts == row.attempts && after.journal == row.journal
    requires after.used == row.used && after.limit == row.limit && after.reserved == row.reserved
    requires Open(after) ==> Open(row) && after.attempt == row.attempt
    ensures Booked(after) && Conserved(after) && WithinLimit(after)
  {
    forall a: nat ensures AttemptBooked(after, a) && (Open(after) ==> GaveBack(after, a)) {
      assert AttemptBooked(row, a) && (Open(row) ==> GaveBack(row, a));
    }
  }

  lemma MoveKeeps(row: Task, target: TaskState, reason: Option<WaitingReason>)
    requires RowInv(row) && Considerate(row, target, reason) && Move(row, target, reason).Ok?
    ensures RowInv(Move(row, target, reason).value)
  {
    MoneyFrame(row, Move(row, target, reason).value);
  }

  lemma AskKeeps(row: Task, kind: Kind, reason: WaitingReason, step: string, askBefore: bool)
    requires RowInv(row) && Ask(row, kind, reason, step, askBefore).Ok?
    requires kind.ToppingUp? || reason.Resource? ==> row.limit.Some?
    ensures RowInv(Ask(row, kind, reason, step, askBefore).value)
  {
    MoneyFrame(row, Ask(row, kind, reason, step, askBefore).value);
  }

  /** The journal with the line of an opening, if it reserves anything. */
  function WithReservation(journal: seq<Entry>, id: nat, reserve: Amount): seq<Entry> {
    if reserve > 0.0 then journal + [Entry(Reserve, Some(id), reserve)] else journal
  }

  lemma ReservationTotals(journal: seq<Entry>, id: nat, reserve: Amount, a: nat)
    ensures var after := WithReservation(journal, id, reserve);
            && Total(after, Consume) == Total(journal, Consume) && Total(after, Topup) == Total(journal, Topup)
            && TotalOf(after, Consume, a) == TotalOf(journal, Consume, a)
            && TotalOf(after, Reserve, a) == TotalOf(journal, Reserve, a) + if a == id then reserve else 0.0
  {
    hide Total, TotalOf;
    OneMoreLine(journal, Entry(Reserve, Some(id), reserve), Consume, a);
    OneMoreLine(journal, Entry(Reserve, Some(id), reserve), Reserve, a);
    OneMoreLine(journal, Entry(Reserve, Some(id), reserve), Topup, a);
  }

  lemma OpenedIs(row: Task, step: string, inputs: seq<(string, nat)>, reserve: Amount)
    requires OpenAttempt(row, step, inputs, reserve).Ok?
    ensures var (after, id) := (OpenAttempt(row, step, inputs, reserve).value, |row.attempts|);
            && after.journal == WithReservation(row.journal, id, reserve)
            && after.used == row.used && after.limit == row.limit
            && after.attempts == row.attempts + [after.attempts[id]]
            && after.attempts[id].granted == reserve && after.attempts[id].consumed == 0.0
  {
  }

  lemma OpenAttemptBooks(row: Task, step: string, inputs: seq<(string, nat)>, reserve: Amount)
    requires Booked(row) && OpenAttempt(row, step, inputs, reserve).Ok?
    ensures Booked(OpenAttempt(row, step, inputs, reserve).value)
  {
    hide Total, TotalOf, WithReservation;
    OpenedIs(row, step, inputs, reserve);
    var after := OpenAttempt(row, step, inputs, reserve).value;
    hide OpenAttempt;
    ReservationTotals(row.journal, |row.attempts|, reserve, 0);
    forall a: nat ensures AttemptBooked(after, a) {
      assert AttemptBooked(row, a);
      ReservationTotals(row.journal, |row.attempts|, reserve, a);
    }
  }

  lemma OpenAttemptConserves(row: Task, step: string, inputs: seq<(string, nat)>, reserve: Amount)
    requires Conserved(row) && OpenAttempt(row, step, inputs, reserve).Ok?
    ensures Conserved(OpenAttempt(row, step, inputs, reserve).value)
  {
    hide TotalOf;
    var after := OpenAttempt(row, step, inputs, reserve).value;
    if Open(row) {
      forall a: nat ensures GaveBack(after, a) {
        assert GaveBack(row, a);
        OneMoreLine(row.journal, Entry(Reserve, Some(|row.attempts|), reserve), EntryKind.Release, a);
      }
    }
  }

  lemma OpenAttemptFits(row: Task, step: string, inputs: seq<(string, nat)>, reserve: Amount)
    requires row.reserved >= 0.0 && OpenAttempt(row, step, inputs, reserve).Ok?
    ensures WithinLimit(OpenAttempt(row, step, inputs, reserve).value)
  {
    var after := OpenAttempt(row, step, inputs, reserve).value;
    OpenFits(row, step, inputs, reserve);
    TakenOutIsPositive(after.journal);
    assert LastConsumed(after) == 0.0;
  }

  lemma OpenAttemptStaysSingle(row: Task, step: string, inputs: seq<(string, nat)>, reserve: Amount)
    requires OneLive(row) && OneWait(row) && CappedWait(row) && OpenAttempt(row, step, inputs, reserve).Ok?
    ensures var after := OpenAttempt(row, step, inputs, reserve).value;
            OneLive(after) && OneWait(after) && CappedWait(after)
  {
  }

  lemma OpenAttemptKeeps(row: Task, step: string, inputs: seq<(string, nat)>, reserve: Amount)
    requires RowInv(row) && OpenAttempt(row, step, inputs, reserve).Ok?
    ensures RowInv(OpenAttempt(row, step, inputs, reserve).value)
  {
    OpenAttemptBooks(row, step, inputs, reserve);
    OpenAttemptConserves(row, step, inputs, reserve);
    OpenAttemptFits(row, step, inputs, reserve);
    OpenAttemptStaysSingle(row, step, inputs, reserve);
  }

  lemma {:induction false} TakenOutIsPositive(journal: seq<Entry>)
    ensures TakenOut(journal) >= 0.0
  {
    if journal != [] {
      TakenOutIsPositive(journal[..|journal| - 1]);
    }
  }

  /** Right after any attempt opens on a capped task the promise fits: used + reserved <= limit. */
  lemma OpenFits(row: Task, step: string, inputs: seq<(string, nat)>, reserve: Amount)
    requires OpenAttempt(row, step, inputs, reserve).Ok?
    ensures var after := OpenAttempt(row, step, inputs, reserve).value;
            after.limit.Some? ==> after.used + after.reserved <= after.limit.value
  {
  }

  /** What attempt `a` gives back when it moves to `target`. */
  function Back(row: Task, a: nat, target: AttemptState, consumed: Amount): Amount {
    if Ended(target) then GivenBack(AfterCharge(row.reserved, GrantedTo(row, a), consumed), GrantedTo(row, a), consumed)
    else 0.0
  }

  /** The journal lines a move of attempt `a` writes. */
  function Lines(row: Task, a: nat, target: AttemptState, consumed: Amount): seq<Entry> {
    (if consumed > 0.0 then [Entry(Consume, Some(a), consumed)] else [])
    + (if Back(row, a, target, consumed) > 0.0
       then [Entry(EntryKind.Release, Some(a), Back(row, a, target, consumed))] else [])
  }

  lemma LinesTotals(row: Task, a: nat, target: AttemptState, consumed: Amount)
    ensures var lines := Lines(row, a, target, consumed);
            TakenOut(lines) == 0.0 && Total(lines, Consume) == consumed && Total(lines, Topup) == 0.0
  {
    var first := if consumed > 0.0 then [Entry(Consume, Some(a), consumed)] else [];
    var second := if Back(row, a, target, consumed) > 0.0
                  then [Entry(EntryKind.Release, Some(a), Back(row, a, target, consumed))] else [];
    TotalConcat(first, second, Consume);
    TotalConcat(first, second, Topup);
    TakenOutConcat(first, second);
  }

  lemma LinesTotalsOf(row: Task, a: nat, target: AttemptState, consumed: Amount, b: nat)
    ensures var lines := Lines(row, a, target, consumed);
            && TotalOf(lines, Consume, b) == (if b == a then consumed else 0.0)
            && TotalOf(lines, Reserve, b) == 0.0
            && TotalOf(lines, EntryKind.Release, b) == (if b == a then Back(row, a, target, consumed) else 0.0)
  {
    var first := if consumed > 0.0 then [Entry(Consume, Some(a), consumed)] else [];
    var second := if Back(row, a, target, consumed) > 0.0
                  then [Entry(EntryKind.Release, Some(a), Back(row, a, target, consumed))] else [];
    TotalOfConcat(first, second, Consume, b);
    TotalOfConcat(first, second, Reserve, b);
    TotalOfConcat(first, second, EntryKind.Release, b);
  }

  /** What a move of attempt `a` writes before a spent budget sends the task to wait. */
  function Moved(row: Task, a: nat, target: AttemptState, consumed: Amount,
                 failure: Failure, output: Option<(string, nat)>): Task
    requires a < |row.attempts|
  {
    var was := row.attempts[a];
    row.(
      attempts := row.attempts[a := was.(status := target, consumed := was.consumed + consumed,
                                         failure := if Ended(target) then failure else was.failure,
                                         output := if Ended(target) && output.Some? then output else was.output)],
      used := row.used + consumed, version := row.version + 1,
      reserved := AfterCharge(row.reserved, was.granted, consumed) - Back(row, a, target, consumed),
      attempt := if Ended(target) then None else row.attempt,
      journal := row.journal + Lines(row, a, target, consumed))
  }

  lemma MovedIs(row: Task, a: nat, target: AttemptState, consumed: Amount,
                failure: Failure, output: Option<(string, nat)>)
    requires a < |row.attempts| && target in AttemptMoves(row.attempts[a].status) && Budgeted(row)
    ensures var moved := Moved(row, a, target, consumed, failure, output);
            MoveAttempt(row, a, target, consumed, failure, output)
            == if target.BudgetExceeded? then Ask(moved, ToppingUp, Resource, "", false) else Ok(moved)
  {
    var first := if consumed > 0.0 then row.journal + [Entry(Consume, Some(a), consumed)] else row.journal;
    var back := Back(row, a, target, consumed);
    assert row.journal + Lines(row, a, target, consumed)
        == if back > 0.0 then first + [Entry(EntryKind.Release, Some(a), back)] else first;
  }

  /** Whatever was charged before, an ending attempt gives back exactly its unspent part and leaves
      nothing reserved; an attempt that goes on keeps exactly its unspent part reserved. */
  lemma ChargeIsExact(row: Task, a: nat, target: AttemptState, consumed: Amount)
    requires row.reserved == Unspent(row, a)
    ensures var charged := AfterCharge(row.reserved, GrantedTo(row, a), consumed);
            var unspent := Pos(GrantedTo(row, a) - (ConsumedBy(row, a) + consumed));
            && charged == unspent
            && Back(row, a, target, consumed) == if Ended(target) then unspent else 0.0
  {
  }

  lemma MovedBooks(row: Task, a: nat, target: AttemptState, consumed: Amount,
                   failure: Failure, output: Option<(string, nat)>)
    requires Booked(row) && a < |row.attempts|
    ensures Booked(Moved(row, a, target, consumed, failure, output))
  {
    var after := Moved(row, a, target, consumed, failure, output);
    var lines := Lines(row, a, target, consumed);
    LinesTotals(row, a, target, consumed);
    TotalConcat(row.journal, lines, Consume);
    TotalConcat(row.journal, lines, Topup);
    forall b: nat ensures AttemptBooked(after, b) {
      assert AttemptBooked(row, b);
      LinesTotalsOf(row, a, target, consumed, b);
      TotalOfConcat(row.journal, lines, Consume, b);
      TotalOfConcat(row.journal, lines, Reserve, b);
    }
  }

  lemma MovedGivesBackEach(row: Task, a: nat, target: AttemptState, consumed: Amount,
                           failure: Failure, output: Option<(string, nat)>, b: nat)
    requires a < |row.attempts| && !Ended(row.attempts[a].status)
    requires row.reserved == Unspent(row, a) && GaveBack(row, b)
    ensures GaveBack(Moved(row, a, target, consumed, failure, output), b)
  {
    hide TotalOf, Lines, Back;
    ChargeIsExact(row, a, target, consumed);
    LinesTotalsOf(row, a, target, consumed, b);
    TotalOfConcat(row.journal, Lines(row, a, target, consumed), EntryKind.Release, b);
  }

  lemma MovedConserves(row: Task, a: nat, target: AttemptState, consumed: Amount,
                       failure: Failure, output: Option<(string, nat)>)
    requires OneLive(row) && Conserved(row) && a < |row.attempts| && target in AttemptMoves(row.attempts[a].status)
    ensures Conserved(Moved(row, a, target, consumed, failure, output))
  {
    hide GaveBack, Lines;
    if Open(row) {
      assert row.attempt == Some(a);
      ChargeIsExact(row, a, target, consumed);
      forall b: nat ensures GaveBack(Moved(row, a, target, consumed, failure, output), b) {
        assert GaveBack(row, b);
        MovedGivesBackEach(row, a, target, consumed, failure, output, b);
      }
    }
  }

  lemma MovedKeeps(row: Task, a: nat, target: AttemptState, consumed: Amount,
                   failure: Failure, output: Option<(string, nat)>)
    requires RowInv(row) && a < |row.attempts| && target in AttemptMoves(row.attempts[a].status)
    ensures RowInv(Moved(row, a, target, consumed, failure, output))
  {
    MovedBooks(row, a, target, consumed, failure, output);
    MovedConserves(row, a, target, consumed, failure, output);
    LinesTotals(row, a, target, consumed);
    TakenOutConcat(row.journal, Lines(row, a, target, consumed));
  }

  lemma MoveAttemptKeeps(row: Task, a: nat, target: AttemptState, consumed: Amount,
                         failure: Failure, output: Option<(string, nat)>)
    requires RowInv(row) && MoveAttempt(row, a, target, consumed, failure, output).Ok?
    requires target.BudgetExceeded? ==> row.limit.Some?
    ensures RowInv(MoveAttempt(row, a, target, consumed, failure, output).value)
  {
    MovedIs(row, a, target, consumed, failure, output);
    MovedKeeps(row, a, target, consumed, failure, output);
    if target.BudgetExceeded? {
      AskKeeps(Moved(row, a, target, consumed, failure, output), ToppingUp, Resource, "", false);
    }
  }

  lemma FreedBooks(row: Task, i: nat, decision: Decision)
    requires i < |row.interactions| && Booked(row)
    ensures Booked(Freed(row, i, decision))
  {
    var after := Freed(row, i, decision);
    if after.journal == row.journal {
      forall a: nat ensures AttemptBooked(after, a) {
        assert AttemptBooked(row, a);
      }
    } else {
      var line := Entry(Topup, None, decision.amount);
      assert after.used == Total(after.journal, Consume)
          && Total(after.journal, Topup) == (if after.limit.Some? then after.limit.value else 0.0) by {
        hide Total;
        OneMoreLine(row.journal, line, Consume, 0);
        OneMoreLine(row.journal, line, Topup, 0);
      }
      forall a: nat ensures AttemptBooked(after, a) {
        hide TotalOf;
        assert AttemptBooked(row, a);
        OneMoreLine(row.journal, line, Consume, a);
        OneMoreLine(row.journal, line, Reserve, a);
      }
    }
  }

  lemma FreedConserves(row: Task, i: nat, decision: Decision)
    requires i < |row.interactions| && Conserved(row)
    ensures Conserved(Freed(row, i, decision))
  {
    hide TotalOf;
    var after := Freed(row, i, decision);
    if Open(row) {
      forall a: nat ensures GaveBack(after, a) {
        assert GaveBack(row, a);
        if after.journal != row.journal {
          OneMoreLine(row.journal, Entry(Topup, None, decision.amount), EntryKind.Release, a);
        }
      }
    }
  }

  lemma FreedFits(row: Task, i: nat, decision: Decision)
    requires i < |row.interactions| && WithinLimit(row) && CappedWait(row)
    ensures WithinLimit(Freed(row, i, decision))
  {
    if Freed(row, i, decision).journal != row.journal {
      OneMoreLine(row.journal, Entry(Topup, None, decision.amount), Topup, 0);
    }
  }

  lemma FreedStaysSingle(row: Task, i: nat, ticket: Ticket, decision: Decision)
    requires OneLive(row) && OneWait(row) && CappedWait(row) && Answerable(row, i, ticket)
    ensures var after := Freed(row, i, decision);
            OneLive(after) && OneWait(after) && CappedWait(after) && after.interaction.None?
  {
  }

  lemma FreedKeeps(row: Task, i: nat, ticket: Ticket, decision: Decision)
    requires RowInv(row) && Answerable(row, i, ticket)
    ensures RowInv(Freed(row, i, decision)) && Freed(row, i, decision).interaction.None?
  {
    hide Freed, OneLive, OneWait, CappedWait, Booked, Conserved, WithinLimit;
    FreedBooks(row, i, decision);
    FreedConserves(row, i, decision);
    FreedFits(row, i, decision);
    FreedStaysSingle(row, i, ticket, decision);
  }

  lemma AnswerKeeps(row: Task, i: nat, ticket: Ticket, decision: Decision, resume: TaskState)
    requires RowInv(row) && Answer(row, i, ticket, decision, resume).Ok?
    ensures RowInv(Answer(row, i, ticket, decision, resume).value)
  {
    FreedKeeps(row, i, ticket, decision);
    MoveKeeps(Freed(row, i, decision), AnswerTarget(row.interactions[i].kind, decision, resume), None);
  }

  lemma ExpireKeeps(row: Task)
    requires RowInv(row)
    ensures RowInv(ExpireApprovals(row))
  {
    MoneyFrame(row, ExpireApprovals(row));
  }
}
