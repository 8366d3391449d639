/** What a conversation has used so far: its usage events, turn by turn in the order the turns appear, and
    together. An event counts what was recorded when it happened. */
module ConversationUsage {
  import opened Prelude
  import opened Pricing

  datatype Noted = Noted(turn: string, usage: Usage, spent: Option<Amount>)

  datatype TurnTotal = TurnTotal(turn: string, calls: nat, usage: Usage, cost: Option<Amount>)

  function Add(cost: Option<Amount>, spent: Option<Amount>): Option<Amount> {
    if cost.None? || spent.None? then None else Some(cost.value + spent.value)
  }

  /** What the events say of one turn. */
  function TurnOf(events: seq<Noted>, turn: string): TurnTotal {
    if events == [] then Zero(turn)
    else
      var before, e := TurnOf(events[..|events| - 1], turn), events[|events| - 1];
      if e.turn != turn then before
      else With(before, e.usage, e.spent)
  }

  /** What they say together, whatever the turn. */
  function Whole(events: seq<Noted>): TurnTotal {
    if events == [] then Zero("")
    else
      With(Whole(events[..|events| - 1]), events[|events| - 1].usage, events[|events| - 1].spent)
  }

  /** The turns added up. */
  function Together(turns: seq<TurnTotal>): TurnTotal {
    if turns == [] then Zero("")
    else
      Joined(Together(turns[..|turns| - 1]), turns[|turns| - 1])
  }

  function Place(turns: seq<TurnTotal>, turn: string): (r: Option<nat>)
    ensures r.Some? ==> r.value < |turns| && turns[r.value].turn == turn
    ensures r.None? ==> forall k :: 0 <= k < |turns| ==> turns[k].turn != turn
  {
    if turns == [] then None
    else if turns[|turns| - 1].turn == turn then Some(|turns| - 1)
    else Place(turns[..|turns| - 1], turn)
  }

  ghost predicate Distinct(turns: seq<TurnTotal>) {
    forall j, k | 0 <= j < |turns| && 0 <= k < |turns| :: turns[j].turn == turns[k].turn ==> j == k
  }

  function Zero(turn: string): TurnTotal {
    TurnTotal(turn, 0, NOTHING, Some(0.0))
  }

  function With(t: TurnTotal, usage: Usage, spent: Option<Amount>): TurnTotal {
    TurnTotal(t.turn, t.calls + 1, t.usage.Plus(usage), Add(t.cost, spent))
  }

  function Joined(a: TurnTotal, b: TurnTotal): TurnTotal {
    TurnTotal("", a.calls + b.calls, a.usage.Plus(b.usage), Add(a.cost, b.cost))
  }

  lemma JoinWith(a: TurnTotal, b: TurnTotal, usage: Usage, spent: Option<Amount>)
    requires a.turn == ""
    ensures Joined(a, With(b, usage, spent)) == With(Joined(a, b), usage, spent) == Joined(With(a, usage, spent), b)
  {
    assert Add(a.cost, Add(b.cost, spent)) == Add(Add(a.cost, b.cost), spent) == Add(Add(a.cost, spent), b.cost);
  }

  /** Changing one turn by one call changes the sum by that call. */
  lemma {:induction false} OneCall(turns: seq<TurnTotal>, k: nat, usage: Usage, spent: Option<Amount>)
    requires k < |turns|
    ensures Together(turns).turn == ""
    ensures Together(turns[k := With(turns[k], usage, spent)]) == With(Together(turns), usage, spent)
  {
    hide With;
    var more, n := turns[k := With(turns[k], usage, spent)], |turns| - 1;
    assert Together(turns) == Joined(Together(turns[..n]), turns[n]);
    assert Together(more) == Joined(Together(more[..n]), more[n]);
    JoinWith(Together(turns[..n]), turns[n], usage, spent);
    if k == n {
      assert more[..n] == turns[..n];
    } else {
      assert more[..n] == turns[..n][k := With(turns[k], usage, spent)];
      OneCall(turns[..n], k, usage, spent);
    }
  }

  lemma NewTurn(turns: seq<TurnTotal>, turn: string)
    ensures Together(turns + [Zero(turn)]) == Together(turns)
  {
    var t := Zero(turn);
    assert (turns + [t])[..|turns|] == turns;
    var sum := Together(turns);
    assert Joined(sum, t) == TurnTotal("", sum.calls, sum.usage, sum.cost);
  }

  /** The turns of the events, in the order they first appear. */
  function FirstSeen(events: seq<Noted>): seq<string> {
    if events == [] then []
    else
      var before, turn := FirstSeen(events[..|events| - 1]), events[|events| - 1].turn;
      if turn in before then before else before + [turn]
  }

  function Names(turns: seq<TurnTotal>): seq<string> {
    seq(|turns|, k requires 0 <= k < |turns| => turns[k].turn)
  }

  /** The table says of every turn of the events, and of no other, what the events say. */
  ghost predicate Tallied(turns: seq<TurnTotal>, events: seq<Noted>) {
    && Distinct(turns)
    && (forall k :: 0 <= k < |turns| ==> turns[k] == TurnOf(events, turns[k].turn))
    && (forall t: string :: Place(turns, t).None? ==> TurnOf(events, t) == Zero(t))
    && (forall j :: 0 <= j < |events| ==> Place(turns, events[j].turn).Some?)
    && Together(turns) == Whole(events)
  }

  lemma NamedOnce(turns: seq<TurnTotal>, turn: string)
    ensures Place(turns, turn).Some? <==> turn in Names(turns)
  {
    if turn in Names(turns) {
      var k :| 0 <= k < |turns| && Names(turns)[k] == turn;
      assert turns[k].turn == turn;
    }
    if Place(turns, turn).Some? {
      assert Names(turns)[Place(turns, turn).value] == turn;
    }
  }

  lemma TurnOfSnoc(events: seq<Noted>, e: Noted, turn: string)
    ensures TurnOf(events + [e], turn)
         == if e.turn == turn then With(TurnOf(events, turn), e.usage, e.spent) else TurnOf(events, turn)
    ensures Whole(events + [e]) == With(Whole(events), e.usage, e.spent)
    ensures TurnOf(events, turn).turn == turn
  {
    hide With;
    assert (events + [e])[..|events|] == events;
    TurnIs(events, turn);
  }

  lemma {:induction false} TurnIs(events: seq<Noted>, turn: string)
    ensures TurnOf(events, turn).turn == turn
  {
    if events != [] {
      TurnIs(events[..|events| - 1], turn);
    }
  }

  lemma OpeningKeeps(turns: seq<TurnTotal>, events: seq<Noted>, turn: string)
    requires Tallied(turns, events) && Place(turns, turn).None?
    ensures Tallied(turns + [Zero(turn)], events)
  {
    hide Together, TurnOf, Whole, Names;
    NewTurn(turns, turn);
    Found(turns, turns + [Zero(turn)], turn);
  }

  lemma OneMoreName(turns: seq<TurnTotal>, turn: string)
    ensures Names(turns + [Zero(turn)]) == Names(turns) + [turn]
  {
  }

  lemma CountingKeeps(turns: seq<TurnTotal>, events: seq<Noted>, e: Noted, k: nat)
    requires Tallied(turns, events) && k < |turns| && turns[k].turn == e.turn
    ensures var more := turns[k := With(turns[k], e.usage, e.spent)];
            Tallied(more, events + [e]) && Names(more) == Names(turns)
  {
    hide Together, TurnOf, Whole, Place;
    var more := turns[k := With(turns[k], e.usage, e.spent)];
    OneCall(turns, k, e.usage, e.spent);
    forall t: string
      ensures TurnOf(events + [e], t)
           == if e.turn == t then With(TurnOf(events, t), e.usage, e.spent) else TurnOf(events, t)
    {
      TurnOfSnoc(events, e, t);
    }
    TurnOfSnoc(events, e, e.turn);
    Found(turns, more, e.turn);
    forall j | 0 <= j < |events + [e]| ensures Place(more, (events + [e])[j].turn).Some? {
      assert j < |events| ==> (events + [e])[j] == events[j];
    }
  }

  lemma FirstSeenSnoc(events: seq<Noted>, e: Noted)
    ensures FirstSeen(events + [e])
         == if e.turn in FirstSeen(events) then FirstSeen(events) else FirstSeen(events) + [e.turn]
  {
    assert (events + [e])[..|events|] == events;
  }

  /** Everything the conversation has used, by turn and together. */
  method Usages(events: seq<Noted>) returns (turns: seq<TurnTotal>, whole: TurnTotal)
    ensures Tallied(turns, events) && Names(turns) == FirstSeen(events) && whole == Whole(events)
  {
    hide Tallied, FirstSeen;
    turns := [];
    var everything, calls, total := NOTHING, 0, Some(0.0);
    NothingYet();
    for n := 0 to |events|
      invariant Tallied(turns, events[..n]) && Names(turns) == FirstSeen(events[..n])
      invariant TurnTotal("", calls, everything, total) == Whole(events[..n])
    {
      var e := events[n];
      assert events[..n + 1] == events[..n] + [e];
      FirstSeenSnoc(events[..n], e);
      NamedOnce(turns, e.turn);
      var at := Place(turns, e.turn);
      if at.None? {
        OpeningKeeps(turns, events[..n], e.turn);
        OneMoreName(turns, e.turn);
        turns := turns + [Zero(e.turn)];
        at := Some(|turns| - 1);
      }
      CountingKeeps(turns, events[..n], e, at.value);
      TurnOfSnoc(events[..n], e, e.turn);
      var t := turns[at.value];
      turns := turns[at.value := TurnTotal(t.turn, t.calls + 1, t.usage.Plus(e.usage), Add(t.cost, e.spent))];
      everything, calls, total := everything.Plus(e.usage), calls + 1, Add(total, e.spent);
    }
    assert events[..|events|] == events;
    return turns, TurnTotal("", calls, everything, total);
  }

  lemma NothingYet()
    ensures Tallied([], []) && Whole([]) == Zero("") && Names([]) == FirstSeen([])
  {
  }

  lemma Found(was: seq<TurnTotal>, turns: seq<TurnTotal>, turn: string)
    requires |was| <= |turns| <= |was| + 1
    requires forall k :: 0 <= k < |was| ==> turns[k].turn == was[k].turn
    requires |turns| == |was| + 1 ==> turns[|was|].turn == turn
    requires |turns| == |was| ==> Place(was, turn).Some?
    ensures forall t: string :: Place(turns, t).Some? <==> Place(was, t).Some? || t == turn
  {
    forall t: string ensures Place(turns, t).Some? <==> Place(was, t).Some? || t == turn {
      if Place(was, t).Some? {
        assert turns[Place(was, t).value].turn == t;
      }
    }
  }

  /** A cost is unknown exactly when some call was unpriced, of the whole and of each turn. */
  lemma {:induction false} UnknownWhenUnpriced(events: seq<Noted>, turn: string)
    ensures Whole(events).cost.None? <==> exists j :: 0 <= j < |events| && events[j].spent.None?
    ensures TurnOf(events, turn).cost.None?
       <==> exists j :: 0 <= j < |events| && events[j].turn == turn && events[j].spent.None?
    ensures Whole(events).calls == |events|
  {
    if events != [] {
      var before := events[..|events| - 1];
      UnknownWhenUnpriced(before, turn);
      assert forall j :: 0 <= j < |before| ==> before[j] == events[j];
      assert events[|events| - 1].spent.None? ==> Whole(events).cost.None?;
    }
  }

  /** What the events of one turn used, in their order. */
  function UsedIn(events: seq<Noted>, turn: string): seq<Usage> {
    if events == [] then []
    else
      var e := events[|events| - 1];
      UsedIn(events[..|events| - 1], turn) + if e.turn == turn then [e.usage] else []
  }

  /** What they cost, as far as that is known. */
  function SpentIn(events: seq<Noted>, turn: string): real {
    if events == [] then 0.0
    else
      var e := events[|events| - 1];
      SpentIn(events[..|events| - 1], turn) + if e.turn == turn && e.spent.Some? then e.spent.value else 0.0
  }

  /** A turn has as many calls as it has events, has used what they used, and has cost, if that is known, what they
      cost; so has the whole, over all turns. */
  lemma {:induction false} TurnAddsUp(events: seq<Noted>, turn: string)
    ensures var t := TurnOf(events, turn);
            && t.turn == turn && t.calls == |UsedIn(events, turn)| && t.usage == Sum(UsedIn(events, turn))
            && (t.cost.Some? ==> t.cost.value == SpentIn(events, turn))
  {
    hide Usage.Plus;
    if events != [] {
      var before, e := events[..|events| - 1], events[|events| - 1];
      TurnAddsUp(before, turn);
      if e.turn == turn {
        SumSnoc(UsedIn(before, turn), e.usage);
      } else {
        assert UsedIn(before, turn) + [] == UsedIn(before, turn);
      }
    }
  }

  lemma SumSnoc(calls: seq<Usage>, u: Usage)
    ensures Sum(calls + [u]) == Sum(calls).Plus(u)
  {
    assert (calls + [u])[..|calls|] == calls;
  }
}
