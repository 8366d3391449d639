/** An expert pack: a table of steps, each with what it reads, what it hands back, and how often it may
    be redone or sent back. */
module Packs {
  import opened Prelude

  datatype OnReject = Rework | Back | Human

  datatype StepContract = StepContract(
    id: string,
    inputRefs: seq<string>,
    output: string,
    onReject: OnReject,
    backTo: Option<string>,
    maxReworks: int,
    maxBacks: int,
    reserve: Amount,
    asksBefore: bool)

  type Pack = seq<StepContract>

  const HANDBACK := "handback"

  function IndexOf(pack: Pack, id: string): (r: Option<nat>)
    ensures r.Some? ==> r.value < |pack| && pack[r.value].id == id
    ensures r.None? ==> forall i :: 0 <= i < |pack| ==> pack[i].id != id
  {
    if pack == [] then None
    else
      var r := IndexOf(pack[..|pack| - 1], id);
      if r.Some? then r
      else if pack[|pack| - 1].id == id then Some(|pack| - 1)
      else None
  }

  /** A step that sends a failed result back to an earlier step. */
  predicate GoesBack(step: StepContract) {
    step.onReject.Back? && step.backTo.Some? && step.backTo.value != ""
  }

  /** What every built-in pack keeps to: names are distinct, a step reads what earlier steps hand back,
      and goes back to an earlier step. */
  ghost predicate PackOk(pack: Pack) {
    && |pack| > 0
    && (forall i, j | 0 <= i < |pack| && 0 <= j < |pack| :: pack[i].id == pack[j].id ==> i == j)
    && (forall i, j | 0 <= i < |pack| && 0 <= j < |pack| :: pack[i].output == pack[j].output ==> i == j)
    && (forall i :: 0 <= i < |pack| ==> pack[i].output != HANDBACK)
    && (forall i :: 0 <= i < |pack| ==> ReadsEarlier(pack, i))
    && (forall i :: 0 <= i < |pack| && GoesBack(pack[i]) ==>
                      IndexOf(pack, pack[i].backTo.value).Some? && IndexOf(pack, pack[i].backTo.value).value < i)
  }

  ghost predicate ReadsEarlier(pack: Pack, i: nat)
    requires i < |pack|
  {
    forall name :: name in pack[i].inputRefs ==> Provided(pack, i, name)
  }

  /** Some step before `i` hands back `name`. */
  ghost predicate Provided(pack: Pack, i: nat, name: string) {
    exists j :: 0 <= j < i && j < |pack| && pack[j].output == name
  }
}
