/** How many tokens were used and what they cost: one report per call of the model, with what the call used
    and what its thread has used so far. */
module Pricing {
  import opened Prelude

  /** Four parts that do not overlap. */
  datatype Usage = Usage(input: nat, cached: nat, written: nat, output: nat) {

    function Total(): nat {
      input + cached + written + output
    }

    function Plus(other: Usage): Usage {
      Usage(input + other.input, cached + other.cached, written + other.written, output + other.output)
    }

    predicate AtLeast(other: Usage) {
      input >= other.input && cached >= other.cached && written >= other.written && output >= other.output
    }

    /** What is more than `earlier`; None when something shrank. */
    function Since(earlier: Usage): Option<Usage> {
      if AtLeast(earlier) then
        Some(Usage(input - earlier.input, cached - earlier.cached, written - earlier.written, output - earlier.output))
      else None
    }
  }

  const NOTHING := Usage(0, 0, 0, 0)

  /** A report as it arrives: its input includes what came from and went into the cache. */
  datatype Raw = Raw(input: nat, cached: nat, written: nat, output: nat, total: nat)

  function NotBelow0(x: int): nat {
    if x > 0 then x else 0
  }

  function Least(x: nat, y: nat): nat {
    if x <= y then x else y
  }

  /** With nothing but a total to go by, all of it counts as input. */
  function Everything(raw: Raw): nat {
    if raw.input == 0 && raw.output == 0 then raw.total else raw.input
  }

  function UsageOf(raw: Raw): Usage {
    var everything := Everything(raw);
    Usage(NotBelow0(everything - raw.cached - raw.written), Least(raw.cached, everything),
          Least(raw.written, NotBelow0(everything - raw.cached)), raw.output)
  }

  /** The split loses nothing and counts nothing twice, whatever the parts claim; it keeps each claim that fits; and of
      a report with nothing but a total, all is input. */
  lemma SplitIsExact(raw: Raw)
    ensures var u := UsageOf(raw);
            var all := if raw.input == 0 && raw.output == 0 then raw.total else raw.input;
            && u.input + u.cached + u.written == all
            && u.output == raw.output
            && (raw.cached + raw.written <= all ==> u.cached == raw.cached && u.written == raw.written)
  {
  }

  /** What one notification says: the thread's total so far, and this call. */
  datatype Report = Report(total: Option<Raw>, last: Option<Raw>)

  function Cumulative(r: Report): Option<Usage> {
    if r.total.Some? then Some(UsageOf(r.total.value)) else None
  }

  function Call(r: Report): Usage {
    if r.last.Some? then UsageOf(r.last.value) else NOTHING
  }

  /** What a notification adds: what the total grew by, or the call itself when that cannot be told. */
  function Fresh(r: Report, previous: Option<Usage>): Usage {
    var total := Cumulative(r);
    if total.Some? && previous.Some? && total.value.Since(previous.value).Some?
    then total.value.Since(previous.value).value
    else Call(r)
  }

  /** The total a thread is remembered by. */
  function Remembered(reports: seq<Report>, previous: Option<Usage>): Option<Usage> {
    if reports == [] then previous
    else
      var last := Cumulative(reports[|reports| - 1]);
      if last.Some? then last else Remembered(reports[..|reports| - 1], previous)
  }

  /** Everything recorded for one thread. */
  function Recorded(reports: seq<Report>, previous: Option<Usage>): Usage {
    if reports == [] then NOTHING
    else
      var before := reports[..|reports| - 1];
      Recorded(before, previous).Plus(Fresh(reports[|reports| - 1], Remembered(before, previous)))
  }

  /** One more notification. */
  lemma OneMore(before: seq<Report>, r: Report, previous: Option<Usage>)
    ensures Recorded(before + [r], previous)
         == Recorded(before, previous).Plus(Fresh(r, Remembered(before, previous)))
    ensures Remembered(before + [r], previous)
         == if r.total.Some? then Cumulative(r) else Remembered(before, previous)
    ensures Journal(before + [r], previous)
         == Journal(before, previous) + if Fresh(r, Remembered(before, previous)).Total() == 0 then [] else [r]
  {
    hide Fresh, UsageOf;
    assert (before + [r])[..|before|] == before;
  }

  lemma NoneYet(previous: Option<Usage>)
    ensures Recorded([], previous) == NOTHING && Remembered([], previous) == previous && Journal([], previous) == []
  {
  }

  // ---------- telescoping ----------

  /** No part of a thread's total ever shrinks from one report that carries it to a later one. */
  predicate Growing(reports: seq<Report>) {
    forall i, j | 0 <= i <= j < |reports| && reports[i].total.Some? && reports[j].total.Some? ::
      UsageOf(reports[j].total.value).AtLeast(UsageOf(reports[i].total.value))
  }

  /** The first report that carries a total. */
  function First(reports: seq<Report>): (r: Option<Report>)
    ensures r.Some? ==> r.value.total.Some?
  {
    if reports == [] then None
    else
      var before := First(reports[..|reports| - 1]);
      var last := reports[|reports| - 1];
      if before.Some? then before else if last.total.Some? then Some(last) else None
  }

  /** The calls of the reports that carry no total. */
  function Untold(reports: seq<Report>): Usage {
    if reports == [] then NOTHING
    else
      var last := reports[|reports| - 1];
      Untold(reports[..|reports| - 1]).Plus(if last.total.Some? then NOTHING else Call(last))
  }

  /** What was recorded is the last total less the first, plus the first call, plus the calls of reports without
      a total. */
  predicate AddsUp(reports: seq<Report>) {
    var first, last := First(reports), Remembered(reports, None);
    if first.None? || last.None? then Recorded(reports, None) == Untold(reports)
    else
      Recorded(reports, None).Plus(Cumulative(first.value).value)
      == last.value.Plus(Call(first.value)).Plus(Untold(reports))
  }

  lemma OneMoreTold(before: seq<Report>, r: Report)
    ensures First(before + [r]) == if First(before).None? && r.total.Some? then Some(r) else First(before)
    ensures Untold(before + [r]) == Untold(before).Plus(if r.total.Some? then NOTHING else Call(r))
  {
    assert (before + [r])[..|before|] == before;
  }

  /** A thread has a total to remember as soon as one report carries one: the last that did. */
  lemma {:induction false} LastTold(reports: seq<Report>) returns (k: nat)
    ensures First(reports).Some? <==> Remembered(reports, None).Some?
    ensures First(reports).None? ==> forall i :: 0 <= i < |reports| ==> reports[i].total.None?
    ensures First(reports).Some? ==>
              && k < |reports| && reports[k].total.Some?
              && Remembered(reports, None) == Some(UsageOf(reports[k].total.value))
              && forall i :: k < i < |reports| ==> reports[i].total.None?
  {
    hide UsageOf;
    k := 0;
    if reports != [] {
      k := LastTold(reports[..|reports| - 1]);
      if reports[|reports| - 1].total.Some? {
        k := |reports| - 1;
      }
    }
  }

  /** One more report keeps the totals growing exactly if its own total is no less than the last one. */
  lemma OneMoreGrows(before: seq<Report>, r: Report)
    ensures Growing(before + [r])
       <==> && Growing(before)
            && (r.total.Some? && Remembered(before, None).Some? ==>
                  UsageOf(r.total.value).AtLeast(Remembered(before, None).value))
  {
    hide UsageOf, Remembered, First;
    var k := LastTold(before);
    var all := before + [r];
    assert all[|before|] == r && forall i :: 0 <= i < |before| ==> all[i] == before[i];
    if r.total.Some? && First(before).Some? && Growing(all) {
      assert UsageOf(all[|before|].total.value).AtLeast(UsageOf(all[k].total.value));
    }
  }

  /** The arithmetic of one report after a total `was`: the sum stays right exactly if nothing shrank. */
  lemma GrowthAdds(recorded: Usage, first: Usage, was: Usage, now: Usage, call: Usage, untold: Usage, last: Usage)
    requires recorded.Plus(first) == was.Plus(call).Plus(untold)
    ensures var added := if now.AtLeast(was) then now.Since(was).value else last;
            recorded.Plus(added).Plus(first) == now.Plus(call).Plus(untold) <==> now.AtLeast(was)
  {
  }

  lemma NothingAdds(u: Usage)
    ensures u.Plus(NOTHING) == u
  {
  }

  lemma OnBothSides(recorded: Usage, first: Usage, due: Usage, untold: Usage, call: Usage)
    ensures recorded.Plus(call).Plus(first) == due.Plus(untold.Plus(call))
       <==> recorded.Plus(first) == due.Plus(untold)
  {
  }

  lemma Reorders(a: Usage, b: Usage, c: Usage)
    ensures a.Plus(b).Plus(c) == c.Plus(b).Plus(a)
  {
  }

  /** After a report too the sum is right exactly if its total has not shrunk. */
  lemma OneMoreAddsUp(before: seq<Report>, r: Report)
    requires AddsUp(before)
    ensures AddsUp(before + [r])
       <==> (r.total.Some? && Remembered(before, None).Some? ==>
               UsageOf(r.total.value).AtLeast(Remembered(before, None).value))
  {
    hide UsageOf, Recorded, Remembered, Journal, First, Untold, Call, Usage.Plus, Usage.AtLeast, Usage.Since;
    OneMore(before, r, None);
    OneMoreTold(before, r);
    var _ := LastTold(before);
    NothingAdds(Untold(before));
    var recorded, untold, call := Recorded(before, None), Untold(before), Call(r);
    if First(before).Some? {
      var first, was := Cumulative(First(before).value).value, Remembered(before, None).value;
      if r.total.Some? {
        GrowthAdds(recorded, first, was, UsageOf(r.total.value), Call(First(before).value), untold, call);
        SinceIs(UsageOf(r.total.value), was);
      } else {
        OnBothSides(recorded, first, was.Plus(Call(First(before).value)), untold, call);
      }
    } else if r.total.Some? {
      var now := UsageOf(r.total.value);
      NothingAdds(untold);
      Reorders(untold, call, now);
    }
  }

  lemma SinceIs(now: Usage, was: Usage)
    ensures now.Since(was).Some? <==> now.AtLeast(was)
  {
  }

  lemma NoReports()
    ensures AddsUp([]) && Growing([]) && First([]).None? && Untold([]) == NOTHING
  {
  }

  /** However many notifications were repeated or lost: after every report the sum of what was recorded is the last
      total less the first plus the first call (and whatever calls came without a total), if and only if no part
      of the total ever shrinks. */
  lemma {:induction false} Telescopes(reports: seq<Report>)
    ensures (forall k :: 0 <= k <= |reports| ==> AddsUp(reports[..k])) <==> Growing(reports)
  {
    hide AddsUp, Growing, UsageOf, Remembered, Usage.AtLeast;
    if reports == [] {
      NoReports();
      assert reports[..0] == [];
    } else {
      var before, last := reports[..|reports| - 1], reports[|reports| - 1];
      Telescopes(before);
      assert reports == before + [last] && reports[..|reports|] == reports;
      OneMoreGrows(before, last);
      assert forall k :: 0 <= k <= |before| ==> reports[..k] == before[..k];
      assert before[..|before|] == before;
      if AddsUp(before) {
        OneMoreAddsUp(before, last);
      }
      assert AddsUp(reports[..|before|]) <==> AddsUp(before);
    }
  }

  /** A repeated notification adds nothing. */
  lemma RepeatAddsNothing(reports: seq<Report>, r: Report)
    requires r.total.Some? && Remembered(reports, None) == Cumulative(r)
    ensures Recorded(reports + [r], None) == Recorded(reports, None)
  {
    assert (reports + [r])[..|reports|] == reports;
  }

  // ---------- totals that are sums of calls ----------

  /** The numbers of a call that fit together: what was cached is part of the input, and the total is both sides. */
  predicate Consistent(call: Raw) {
    call.cached + call.written <= call.input && call.total == call.input + call.output
  }

  /** What the other side reports as the total: its calls, added up number by number. */
  function SumOf(calls: seq<Raw>): Raw {
    if calls == [] then Raw(0, 0, 0, 0, 0)
    else
      var before, last := SumOf(calls[..|calls| - 1]), calls[|calls| - 1];
      Raw(before.input + last.input, before.cached + last.cached, before.written + last.written,
          before.output + last.output, before.total + last.total)
  }

  /** What the calls really used. */
  function UsedBy(calls: seq<Raw>): Usage {
    if calls == [] then NOTHING else UsedBy(calls[..|calls| - 1]).Plus(UsageOf(calls[|calls| - 1]))
  }

  lemma PlainSplit(call: Raw)
    requires Consistent(call)
    ensures UsageOf(call) == Usage(call.input - call.cached - call.written, call.cached, call.written, call.output)
  {
  }

  lemma {:induction false} SumsSplit(calls: seq<Raw>)
    requires forall i :: 0 <= i < |calls| ==> Consistent(calls[i])
    ensures Consistent(SumOf(calls)) && UsageOf(SumOf(calls)) == UsedBy(calls)
  {
    hide UsageOf;
    PlainSplit(SumOf([]));
    if calls != [] {
      var before, last := calls[..|calls| - 1], calls[|calls| - 1];
      SumsSplit(before);
      assert Consistent(last);
      PlainSplit(SumOf(before));
      PlainSplit(last);
      PlainSplit(SumOf(calls));
    }
  }

  lemma {:induction false} UsedGrows(calls: seq<Raw>, m: nat, n: nat)
    requires m <= n <= |calls|
    ensures UsedBy(calls[..n]).AtLeast(UsedBy(calls[..m]))
  {
    if m < n {
      UsedGrows(calls, m, n - 1);
      assert calls[..n][..n - 1] == calls[..n - 1];
    }
  }

  /** Which calls the reports that got through came after: some of them once, some again, some never. */
  predicate Marks(marks: seq<nat>, n: nat) {
    && (forall i :: 0 <= i < |marks| ==> 1 <= marks[i] <= n)
    && (forall i, j | 0 <= i <= j < |marks| :: marks[i] <= marks[j])
  }

  function ReportAfter(calls: seq<Raw>, n: nat): Report
    requires 1 <= n <= |calls|
  {
    Report(Some(SumOf(calls[..n])), Some(calls[n - 1]))
  }

  function ReportsOf(calls: seq<Raw>, marks: seq<nat>): (r: seq<Report>)
    requires Marks(marks, |calls|)
  {
    seq(|marks|, i requires 0 <= i < |marks| => ReportAfter(calls, marks[i]))
  }

  lemma SumsGrow(calls: seq<Raw>, marks: seq<nat>)
    requires Marks(marks, |calls|) && forall i :: 0 <= i < |calls| ==> Consistent(calls[i])
    ensures Growing(ReportsOf(calls, marks))
  {
    hide UsageOf, Consistent, Usage.AtLeast;
    var reports := ReportsOf(calls, marks);
    forall i, j | 0 <= i <= j < |reports|
      ensures UsageOf(reports[j].total.value).AtLeast(UsageOf(reports[i].total.value))
    {
      SumsSplit(calls[..marks[i]]);
      SumsSplit(calls[..marks[j]]);
      UsedGrows(calls, marks[i], marks[j]);
    }
  }

  lemma {:induction false} EndsOf(calls: seq<Raw>, marks: seq<nat>)
    requires marks != [] && Marks(marks, |calls|)
    ensures First(ReportsOf(calls, marks)) == Some(ReportAfter(calls, marks[0]))
    ensures Remembered(ReportsOf(calls, marks), None) == Cumulative(ReportAfter(calls, marks[|marks| - 1]))
    ensures Untold(ReportsOf(calls, marks)) == NOTHING
  {
    hide UsageOf, SumOf, Remembered, First, Untold, Cumulative, ReportsOf;
    var before := marks[..|marks| - 1];
    var reports, last := ReportsOf(calls, before), ReportAfter(calls, marks[|marks| - 1]);
    OneMark(calls, marks);
    if before == [] {
      NoReports();
    } else {
      EndsOf(calls, before);
    }
    assert Marks(before, |calls|) && last.total.Some?;
    hide Marks, ReportAfter;
    LastEnds(reports, last);
  }

  lemma LastEnds(before: seq<Report>, r: Report)
    requires r.total.Some? && Untold(before) == NOTHING
    ensures First(before + [r]) == if First(before).None? then Some(r) else First(before)
    ensures Remembered(before + [r], None) == Cumulative(r) && Untold(before + [r]) == NOTHING
  {
    hide UsageOf, Cumulative, Call, Remembered, Recorded, Journal, First, Untold, Fresh, Usage.Plus, Usage.Total;
    OneMoreTold(before, r);
    OneMore(before, r, None);
    NothingAdds(NOTHING);
  }

  lemma OneMark(calls: seq<Raw>, marks: seq<nat>)
    requires marks != [] && Marks(marks, |calls|)
    ensures Marks(marks[..|marks| - 1], |calls|)
    ensures ReportsOf(calls, marks)
         == ReportsOf(calls, marks[..|marks| - 1]) + [ReportAfter(calls, marks[|marks| - 1])]
    ensures |marks| == 1 ==> ReportsOf(calls, marks[..0]) == []
  {
    hide SumOf;
  }

  /** Where the numbers fit together, no lost or repeated report falsifies the sum: everything used after the calls
      that came before the first report is recorded once. */
  lemma GapsAreMadeUp(calls: seq<Raw>, marks: seq<nat>)
    requires marks != [] && Marks(marks, |calls|) && forall i :: 0 <= i < |calls| ==> Consistent(calls[i])
    ensures Recorded(ReportsOf(calls, marks), None).Plus(UsedBy(calls[..marks[0] - 1]))
         == UsedBy(calls[..marks[|marks| - 1]])
  {
    hide UsageOf, Recorded, Remembered, First, Untold, Growing, Consistent, ReportsOf, SumOf;
    var reports := ReportsOf(calls, marks);
    SumsGrow(calls, marks);
    Telescopes(reports);
    assert reports[..|reports|] == reports;
    EndsOf(calls, marks);
    SumsSplit(calls[..marks[0]]);
    SumsSplit(calls[..marks[|marks| - 1]]);
    assert calls[..marks[0]][..marks[0] - 1] == calls[..marks[0] - 1];
  }

  lemma TwoReports(first: Report, second: Report)
    requires first.total.Some?
    ensures Recorded([first, second], None) == Fresh(first, None).Plus(Fresh(second, Cumulative(first)))
  {
    hide Fresh, Cumulative, Recorded, Remembered;
    assert [first, second] == [first] + [second] && [first] == [] + [first];
    NoneYet(None);
    OneMore([], first, None);
    OneMore([first], second, None);
  }

  const PLAIN_CALL := Raw(10, 0, 0, 0, 10)
  const CACHED_CALL := Raw(1, 5, 0, 0, 1)

  lemma SplitsOfTheExample()
    ensures SumOf([PLAIN_CALL]) == PLAIN_CALL && SumOf([PLAIN_CALL, CACHED_CALL]) == Raw(11, 5, 0, 0, 11)
    ensures UsageOf(PLAIN_CALL) == Usage(10, 0, 0, 0) && UsageOf(CACHED_CALL) == Usage(0, 1, 0, 0)
    ensures UsageOf(SumOf([PLAIN_CALL, CACHED_CALL])) == Usage(6, 5, 0, 0)
  {
    assert [PLAIN_CALL, CACHED_CALL][..1] == [PLAIN_CALL] && [PLAIN_CALL][..0] == [];
    assert SumOf([]) == Raw(0, 0, 0, 0, 0);
  }

  /** Where they do not, it can fail although every raw number only grows: a call that says more of its input came
      from the cache than it had input makes the split total shrink. */
  lemma RawGrowthIsNotEnough()
    ensures var reports := ReportsOf([PLAIN_CALL, CACHED_CALL], [1, 2]);
            Recorded(reports, None) != UsageOf(reports[1].total.value) && !Growing(reports)
  {
    var calls := [PLAIN_CALL, CACHED_CALL];
    assert calls[..1] == [PLAIN_CALL] && calls[..2] == calls;
    var first, second := ReportAfter(calls, 1), ReportAfter(calls, 2);
    assert ReportsOf(calls, [1, 2]) == [first, second];
    SplitsOfTheExample();
    hide UsageOf, SumOf, Recorded, Remembered;
    TwoReports(first, second);
    assert !UsageOf([first, second][1].total.value).AtLeast(UsageOf([first, second][0].total.value));
  }

  // ---------- restarts ----------

  /** What went into the journal: the notifications that brought something new. */
  function Journal(reports: seq<Report>, previous: Option<Usage>): seq<Report> {
    if reports == [] then []
    else
      var before := reports[..|reports| - 1];
      var last := reports[|reports| - 1];
      Journal(before, previous) + if Fresh(last, Remembered(before, previous)).Total() == 0 then [] else [last]
  }

  /** A restarted process takes the total of the newest journal entry of the thread. */
  function Recalled(journal: seq<Report>): Option<Usage> {
    if journal == [] then None else Cumulative(journal[|journal| - 1])
  }

  lemma NoGrowth(was: Usage, now: Usage)
    requires now.AtLeast(was)
    ensures now.Since(was).value.Total() == 0 <==> now == was
  {
    var Usage(a, b, c, d) := was;
    var Usage(e, f, g, h) := now;
    assert now.Since(was).value == Usage(e - a, f - b, g - c, h - d);
    hide Usage.Since, Usage.AtLeast;
    assert Usage(e - a, f - b, g - c, h - d).Total() == e - a + f - b + g - c + h - d;
  }

  /** With totals that grow, a journal whose newest entry carries one ends with the total the process knows. */
  lemma {:induction false} NewestIsKnown(reports: seq<Report>)
    requires Growing(reports)
    ensures Recalled(Journal(reports, None)).Some? ==> Recalled(Journal(reports, None)) == Remembered(reports, None)
  {
    hide UsageOf, Recorded, Remembered, Journal, Call, Growing;
    if reports == [] {
      NoneYet(None);
    } else {
      var before, last := reports[..|reports| - 1], reports[|reports| - 1];
      assert reports == before + [last];
      OneMoreGrows(before, last);
      OneMore(before, last, None);
      NewestIsKnown(before);
      var was := Remembered(before, None);
      if Fresh(last, was).Total() == 0 {
        assert Journal(before, None) + [] == Journal(before, None);
        if last.total.Some? && was.Some? {
          NoGrowth(was.value, UsageOf(last.total.value));
        }
      }
    }
  }

  /** A restart finds in the journal exactly the total the process knew, and so records the rest of the thread
      as if it had never restarted, if and only if the process knew none or the thread's newest journal entry
      carries a total. Otherwise the thread looks new to the restarted process. */
  lemma RestartRecalls(reports: seq<Report>)
    requires Growing(reports)
    ensures var journal := Journal(reports, None);
            Recalled(journal) == Remembered(reports, None)
            <==> Remembered(reports, None).None? || (journal != [] && journal[|journal| - 1].total.Some?)
  {
    NewestIsKnown(reports);
  }

  function TotalAt(reports: seq<Report>, i: nat): Usage
    requires i < |reports| && reports[i].total.Some?
  {
    UsageOf(reports[i].total.value)
  }

  /** Where every report carries a total, that is so if and only if the first call used something or the total has
      moved since. */
  lemma {:induction false} FirstCallDecides(reports: seq<Report>)
    requires reports != [] && Growing(reports) && forall i :: 0 <= i < |reports| ==> reports[i].total.Some?
    ensures Remembered(reports, None) == Some(TotalAt(reports, |reports| - 1))
    ensures Recalled(Journal(reports, None)) == Remembered(reports, None)
       <==> Call(reports[0]).Total() != 0 || TotalAt(reports, |reports| - 1) != TotalAt(reports, 0)
  {
    hide UsageOf, Recorded, Remembered, Journal, Call, Usage.AtLeast, Usage.Since, Usage.Total, Fresh;
    var before, last := reports[..|reports| - 1], reports[|reports| - 1];
    assert reports == before + [last];
    OneMore(before, last, None);
    if before == [] {
      NoneYet(None);
      FreshOf(last);
    } else {
      FirstCallDecides(before);
      var first, was, now := TotalAt(reports, 0), TotalAt(before, |before| - 1), TotalAt(reports, |reports| - 1);
      assert now.AtLeast(was) && was.AtLeast(first);
      hide Growing;
      Between(first, was, now);
      FreshAfter(last, was);
      assert Journal(before, None) + [] == Journal(before, None);
    }
  }

  lemma Between(first: Usage, was: Usage, now: Usage)
    requires now.AtLeast(was) && was.AtLeast(first)
    ensures now == first ==> was == first
  {
  }

  lemma FreshOf(r: Report)
    ensures Fresh(r, None) == Call(r)
  {
  }

  /** A grown total brings something exactly if it is another one. */
  lemma FreshAfter(r: Report, was: Usage)
    requires r.total.Some? && UsageOf(r.total.value).AtLeast(was)
    ensures Fresh(r, Some(was)).Total() == 0 <==> UsageOf(r.total.value) == was
  {
    hide UsageOf, Usage.Total, Usage.Since;
    SinceIs(UsageOf(r.total.value), was);
    NoGrowth(was, UsageOf(r.total.value));
  }

  lemma {:induction false} RecordedInTwo(before: seq<Report>, rest: seq<Report>, previous: Option<Usage>)
    ensures Recorded(before + rest, previous)
         == Recorded(before, previous).Plus(Recorded(rest, Remembered(before, previous)))
    ensures Remembered(before + rest, previous) == Remembered(rest, Remembered(before, previous))
  {
    hide Fresh, Cumulative, Recorded, Remembered, Journal;
    NoneYet(Remembered(before, previous));
    if rest == [] {
      assert before + rest == before;
    } else {
      var most, last := rest[..|rest| - 1], rest[|rest| - 1];
      RecordedInTwo(before, most, previous);
      assert rest == most + [last] && before + rest == (before + most) + [last];
      OneMore(before + most, last, previous);
      OneMore(most, last, Remembered(before, previous));
    }
  }

  /** The sum across a restart is the sum without one, whatever comes after it. */
  lemma RestartKeepsTheSum(before: seq<Report>, rest: seq<Report>)
    requires Growing(before)
    requires var journal := Journal(before, None);
             Remembered(before, None).None? || (journal != [] && journal[|journal| - 1].total.Some?)
    ensures Recorded(before, None).Plus(Recorded(rest, Recalled(Journal(before, None))))
         == Recorded(before + rest, None)
  {
    RestartRecalls(before);
    RecordedInTwo(before, rest, None);
  }

  // ---------- cost ----------

  /** Per million tokens, so a token costs this many micro-units. */
  datatype Price = Price(input: Amount, cached: Amount, written: Amount, output: Amount)

  /** In micro-units, before rounding. */
  function Exact(u: Usage, p: Price): real {
    u.input as real * p.input + u.cached as real * p.cached
    + u.written as real * p.written + u.output as real * p.output
  }

  /** To the nearest whole micro-unit, ties to the even one. */
  function Round(x: real): int {
    var down := x.Floor;
    if x - down as real < 0.5 then down
    else if x - down as real > 0.5 then down + 1
    else if down % 2 == 0 then down
    else down + 1
  }

  function CostOf(u: Usage, p: Option<Price>): Option<int> {
    if p.None? then None else Some(Round(Exact(u, p.value)))
  }

  function Abs(x: real): real {
    if x < 0.0 then -x else x
  }

  /** To the nearest, and of two that are equally near to the even one. */
  lemma RoundIsNear(x: real)
    ensures Abs(Round(x) as real - x) <= 0.5
    ensures Abs(Round(x) as real - x) == 0.5 ==> Round(x) % 2 == 0
  {
  }

  lemma Distributes(a: nat, b: nat, p: real)
    ensures (a + b) as real * p == a as real * p + b as real * p
  {
    assert (a + b) as real == a as real + b as real;
  }

  lemma ExactAdds(u: Usage, v: Usage, p: Price)
    ensures Exact(u.Plus(v), p) == Exact(u, p) + Exact(v, p)
  {
    Distributes(u.input, v.input, p.input);
    Distributes(u.cached, v.cached, p.cached);
    Distributes(u.written, v.written, p.written);
    Distributes(u.output, v.output, p.output);
  }

  /** Each part of a usage is charged at its own price; with ExactAdds this fixes the cost of every usage. */
  lemma EachPartItsPrice(n: nat, p: Price)
    ensures Exact(Usage(n, 0, 0, 0), p) == n as real * p.input
    ensures Exact(Usage(0, n, 0, 0), p) == n as real * p.cached
    ensures Exact(Usage(0, 0, n, 0), p) == n as real * p.written
    ensures Exact(Usage(0, 0, 0, n), p) == n as real * p.output
  {
  }

  function Sum(calls: seq<Usage>): Usage {
    if calls == [] then NOTHING else Sum(calls[..|calls| - 1]).Plus(calls[|calls| - 1])
  }

  function SumOfCosts(calls: seq<Usage>, p: Price): int {
    if calls == [] then 0 else SumOfCosts(calls[..|calls| - 1], p) + Round(Exact(calls[|calls| - 1], p))
  }

  lemma {:induction false} CostsDrift(calls: seq<Usage>, p: Price)
    ensures Abs(SumOfCosts(calls, p) as real - Exact(Sum(calls), p)) <= |calls| as real / 2.0
  {
    if calls != [] {
      var before, last := calls[..|calls| - 1], calls[|calls| - 1];
      CostsDrift(before, p);
      ExactAdds(Sum(before), last, p);
      RoundIsNear(Exact(last, p));
    }
  }

  /** The costs shown call by call add up to the cost of the whole to within half a micro-unit for every call
      and half a one for the whole. */
  lemma RoundingIsBounded(calls: seq<Usage>, p: Price)
    ensures Abs(SumOfCosts(calls, p) as real - Round(Exact(Sum(calls), p)) as real) <= (|calls| + 1) as real / 2.0
  {
    CostsDrift(calls, p);
    RoundIsNear(Exact(Sum(calls), p));
  }

  // ---------- the link to a machine ----------

  /** What the runner keeps about the threads and turns of one machine. */
  class SandboxLink {
    var totals: map<string, Option<Usage>>     // None: seen, but no total yet
    var turnUsage: map<string, Usage>

    constructor ()
      ensures totals == map[] && turnUsage == map[]
    {
      totals, turnUsage := map[], map[];
    }

    function Known(thread: string): Option<Usage>
      reads this
    {
      if thread in totals then totals[thread] else None
    }

    function SoFar(turn: string): Usage
      reads this
    {
      if turn in turnUsage then turnUsage[turn] else NOTHING
    }

    /** One notification: what it adds, and what its turn has used with it; None when it brings nothing new. */
    method Priced(thread: string, turn: string, report: Report, price: Option<Price>)
      returns (r: Option<(Usage, Usage, Option<int>, Option<int>)>)
      modifies this
      ensures forall t :: t != thread ==> Known(t) == old(Known(t))
      ensures Known(thread) == if thread != "" && report.total.Some? then Cumulative(report) else old(Known(thread))
      ensures forall t :: t != turn ==> SoFar(t) == old(SoFar(t))
      ensures var usage := Fresh(report, old(Known(thread)));
              && (r.None? <==> usage.Total() == 0)
              && SoFar(turn) == (if turn != "" && r.Some? then old(SoFar(turn)).Plus(usage) else old(SoFar(turn)))
              && (r.Some? ==>
                    var shown := if turn != "" then SoFar(turn) else usage;
                    r.value == (usage, shown, CostOf(usage, price), CostOf(shown, price)))
    {
      var previous := if thread in totals then totals[thread] else None;
      var usage := Fresh(report, previous);
      if thread != "" && Cumulative(report).Some? {
        totals := totals[thread := Cumulative(report)];
      }
      if usage.Total() == 0 { return None; }
      var soFar := usage;
      if turn != "" {
        soFar := (if turn in turnUsage then turnUsage[turn] else NOTHING).Plus(usage);
        turnUsage := turnUsage[turn := soFar];
      }
      return Some((usage, soFar, CostOf(usage, price), CostOf(soFar, price)));
    }

    /** After a restart: the total of the thread's newest entry in the journal. */
    method RecallTotal(thread: string, journal: seq<(string, Report)>)
      modifies this`totals
      ensures forall t :: t != thread ==> Known(t) == old(Known(t))
      ensures Known(thread) == if thread == "" || thread in old(totals) then old(Known(thread))
                               else Recalled(Of(journal, thread))
    {
      if thread == "" || thread in totals { return; }
      totals := totals[thread := None];
      var k := |journal|;
      assert journal[..k] == journal;
      while k > 0
        invariant 0 <= k <= |journal|
        invariant totals == old(totals)[thread := None]
        invariant Recalled(Of(journal, thread)) == Recalled(Of(journal[..k], thread))
      {
        k := k - 1;
        assert journal[..k + 1][..k] == journal[..k];
        if journal[k].0 == thread {
          totals := totals[thread := Cumulative(journal[k].1)];
          return;
        }
      }
      assert journal[..|journal|] == journal;
    }
  }

  /** The entries of one thread. */
  function Of(journal: seq<(string, Report)>, thread: string): seq<Report> {
    if journal == [] then []
    else
      var last := journal[|journal| - 1];
      Of(journal[..|journal| - 1], thread) + if last.0 == thread then [last.1] else []
  }
}
