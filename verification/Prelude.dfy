/** Values shared by every part of the model. */
module Prelude {

  datatype Option<+T> = None | Some(value: T)

  /** Why a transaction of the workbench was refused; a refused transaction is rolled back. */
  datatype Fault =
    | NotFound
    | InvalidTransition
    | StaleVersion
    | BudgetExhausted
    | InvalidBudget
    | ProjectBusy
    | InteractionRejected
    | IdempotencyConflict
    | WheelHeld
    | ProjectRequired
    | EnvironmentOffline

  datatype Result<+T> = Ok(value: T) | Err(fault: Fault) {

    predicate IsFailure() {
      Err?
    }

    function PropagateFailure<U>(): Result<U>
      requires Err?
    {
      Err(fault)
    }

    function Extract(): T
      requires Ok?
    {
      value
    }
  }

  /** An amount of money that is never negative: a reservation, or what a turn cost. */
  type Amount = x: real | x >= 0.0 witness 0.0

  function Pos(x: real): Amount {
    if x > 0.0 then x else 0.0
  }

  function Min(x: real, y: real): real {
    if x <= y then x else y
  }

  lemma WithoutOne<T>(s: seq<T>, j: nat)
    requires j < |s|
    ensures multiset(s[..j] + s[j + 1..]) == multiset(s) - multiset{s[j]}
  {
    assert s == s[..j] + [s[j]] + s[j + 1..];
  }
}
