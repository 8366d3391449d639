/** Comparing the rows a query brought with the rows it should bring: both projected, brought into one order,
    and compared column by column. How a value is written as text is a parameter. */
module Truth {
  import opened Prelude

  datatype Value = Null | Bool(b: bool) | Int(n: int) | Float(r: real) | Text(s: string)

  type Row = map<string, Value>

  datatype Query = Query(columns: seq<string>, keys: seq<string>, distinct: bool, tolerance: real)

  type Written = Value -> string

  // ---------- the order of rows ----------

  predicate Before(a: string, b: string) {
    if b == [] then false
    else if a == [] then true
    else a[0] < b[0] || (a[0] == b[0] && Before(a[1..], b[1..]))
  }

  predicate TupleBefore(a: seq<string>, b: seq<string>) {
    if b == [] then false
    else if a == [] then true
    else Before(a[0], b[0]) || (a[0] == b[0] && TupleBefore(a[1..], b[1..]))
  }

  predicate Leq(a: seq<string>, b: seq<string>) {
    a == b || TupleBefore(a, b)
  }

  lemma {:induction false} TextOrder(a: string, b: string, c: string)
    ensures Before(a, b) || a == b || Before(b, a)
    ensures !(Before(a, b) && Before(b, a)) && !Before(a, a)
    ensures Before(a, b) && Before(b, c) ==> Before(a, c)
    decreases |a| + |b| + |c|
  {
    if a != [] && b != [] {
      TextOrder(a[1..], b[1..], if c == [] then [] else c[1..]);
      assert a == [a[0]] + a[1..] && b == [b[0]] + b[1..];
    }
    if a != [] {
      TextOrder(a[1..], [], []);
    }
  }

  /** One text comes before another if it is a beginning of it, or has the smaller character where they first differ. */
  lemma {:induction false} TextOrderExactly(a: string, b: string)
    ensures Before(a, b) <==> a < b || exists k :: 0 <= k < |a| && k < |b| && a[..k] == b[..k] && a[k] < b[k]
  {
    if a != [] && b != [] {
      var (s, u) := (a[1..], b[1..]);
      TextOrderExactly(s, u);
      assert a == [a[0]] + s && b == [b[0]] + u;
      if a[0] < b[0] {
        assert a[..0] == b[..0];
      } else if a[0] == b[0] {
        if k :| 0 <= k < |s| && k < |u| && s[..k] == u[..k] && s[k] < u[k] {
          assert a[..k + 1] == [a[0]] + s[..k] && b[..k + 1] == [b[0]] + u[..k] && a[k + 1] < b[k + 1];
        }
      }
      if k :| 0 <= k < |a| && k < |b| && a[..k] == b[..k] && a[k] < b[k] {
        if k > 0 {
          assert a[0] == a[..k][0] == b[..k][0] == b[0];
          assert s[..k - 1] == a[..k][1..] == b[..k][1..] == u[..k - 1] && s[k - 1] < u[k - 1];
        }
      }
    }
  }

  lemma {:induction false} TupleOrder(a: seq<string>, b: seq<string>, c: seq<string>)
    ensures TupleBefore(a, b) || a == b || TupleBefore(b, a)
    ensures !(TupleBefore(a, b) && TupleBefore(b, a))
    ensures TupleBefore(a, b) && TupleBefore(b, c) ==> TupleBefore(a, c)
    decreases |a| + |b| + |c|
  {
    hide Before;
    if a != [] && b != [] {
      TupleOrder(a[1..], b[1..], if c == [] then [] else c[1..]);
      TextOrder(a[0], b[0], if c == [] then [] else c[0]);
      assert a == [a[0]] + a[1..] && b == [b[0]] + b[1..];
    }
  }

  lemma LeqIsAnOrder(a: seq<string>, b: seq<string>, c: seq<string>)
    ensures Leq(a, b) || Leq(b, a)
    ensures Leq(a, b) && Leq(b, a) ==> a == b
    ensures Leq(a, b) && Leq(b, c) ==> Leq(a, c)
  {
    hide TupleBefore;
    TupleOrder(a, b, c);
  }

  // ---------- projecting ----------

  function Get(row: Row, column: string): Value {
    if column in row then row[column] else Null
  }

  /** A row's values in the expected columns, in their order. */
  function Projected(row: Row, q: Query): seq<Value> {
    seq(|q.columns|, i requires 0 <= i < |q.columns| => Get(row, q.columns[i]))
  }

  function Project(rows: seq<Row>, q: Query): seq<seq<Value>> {
    seq(|rows|, i requires 0 <= i < |rows| => Projected(rows[i], q))
  }

  function Mark(p: seq<Value>, dump: Written): seq<string> {
    seq(|p|, i requires 0 <= i < |p| => dump(p[i]))
  }

  /** The position of a column among the expected ones. */
  function Position(columns: seq<string>, column: string): (r: Option<nat>)
    ensures r.Some? ==> r.value < |columns| && columns[r.value] == column
    ensures r.None? ==> column !in columns
  {
    if columns == [] then None
    else
      var r := Position(columns[..|columns| - 1], column);
      if r.Some? then r else if columns[|columns| - 1] == column then Some(|columns| - 1) else None
  }

  function Column(p: seq<Value>, q: Query, column: string): Value {
    var at := Position(q.columns, column);
    if at.Some? && at.value < |p| then p[at.value] else Null
  }

  function Keys(q: Query): seq<string> {
    if q.keys == [] then q.columns else q.keys
  }

  function KeyOf(p: seq<Value>, q: Query, dump: Written): seq<string> {
    seq(|Keys(q)|, i requires 0 <= i < |Keys(q)| => dump(Column(p, q, Keys(q)[i])))
  }

  /** The first of every set of rows that are written alike. */
  function Unique(rows: seq<seq<Value>>, dump: Written): seq<seq<Value>> {
    if rows == [] then []
    else
      var before, last := Unique(rows[..|rows| - 1], dump), rows[|rows| - 1];
      if exists k :: 0 <= k < |before| && Mark(before[k], dump) == Mark(last, dump) then before else before + [last]
  }

  /** Behind the rows that are not after it. */
  function Insert(sorted: seq<seq<Value>>, p: seq<Value>, q: Query, dump: Written): seq<seq<Value>> {
    if sorted == [] then [p]
    else
      var last := sorted[|sorted| - 1];
      if Leq(KeyOf(last, q, dump), KeyOf(p, q, dump)) then sorted + [p]
      else Insert(sorted[..|sorted| - 1], p, q, dump) + [last]
  }

  /** In the order of the keys, rows of one key in the order they came. */
  function Sorted(rows: seq<seq<Value>>, q: Query, dump: Written): seq<seq<Value>> {
    if rows == [] then [] else Insert(Sorted(rows[..|rows| - 1], q, dump), rows[|rows| - 1], q, dump)
  }

  function Canonical(rows: seq<Row>, q: Query, dump: Written): seq<seq<Value>> {
    var projected := Project(rows, q);
    Sorted(if q.distinct then Unique(projected, dump) else projected, q, dump)
  }

  // ---------- comparing ----------

  function Number(v: Value): Option<real> {
    match v
    case Bool(b) => Some(if b then 1.0 else 0.0)
    case Int(n) => Some(n as real)
    case Float(r) => Some(r)
    case _ => None
  }

  /** Two numbers within the tolerance; anything else must be equal, and true equals 1. */
  predicate SameValue(left: Value, right: Value, tolerance: real) {
    if Number(left).Some? && !left.Bool? && Number(right).Some? && !right.Bool? then
      -tolerance <= Number(left).value - Number(right).value <= tolerance
    else left == right || (Number(left).Some? && Number(left) == Number(right))
  }

  predicate SameRow(a: seq<Value>, b: seq<Value>, q: Query) {
    forall k :: 0 <= k < |q.columns| ==>
                  SameValue(Column(a, q, q.columns[k]), Column(b, q, q.columns[k]), q.tolerance)
  }

  predicate SameRows(a: seq<seq<Value>>, b: seq<seq<Value>>, q: Query) {
    |a| == |b| && forall i :: 0 <= i < |a| ==> SameRow(a[i], b[i], q)
  }

  predicate AllThere(wanted: seq<string>, columns: seq<string>) {
    forall k :: 0 <= k < |wanted| ==> wanted[k] in columns
  }

  predicate SameResult(candidateColumns: seq<string>, candidate: seq<Row>, truthColumns: seq<string>, truth: seq<Row>,
                       q: Query, dump: Written)
  {
    && AllThere(q.columns, candidateColumns) && AllThere(q.columns, truthColumns)
    && SameRows(Canonical(candidate, q, dump), Canonical(truth, q, dump), q)
  }

  method CompareResults(candidateColumns: seq<string>, candidate: seq<Row>, truthColumns: seq<string>,
                        truth: seq<Row>, q: Query, dump: Written) returns (same: bool)
    ensures same == SameResult(candidateColumns, candidate, truthColumns, truth, q, dump)
  {
    hide Canonical, Column, SameValue;
    for k := 0 to |q.columns|
      invariant forall j :: 0 <= j < k ==> q.columns[j] in candidateColumns
    {
      if q.columns[k] !in candidateColumns { return false; }
    }
    if !AllThere(q.columns, truthColumns) { return false; }
    var left, right := Canonical(candidate, q, dump), Canonical(truth, q, dump);
    if |left| != |right| { return false; }
    for i := 0 to |left|
      invariant forall j :: 0 <= j < i ==> SameRow(left[j], right[j], q)
    {
      for k := 0 to |q.columns|
        invariant forall j :: 0 <= j < k ==>
                    SameValue(Column(left[i], q, q.columns[j]), Column(right[i], q, q.columns[j]), q.tolerance)
      {
        if !SameValue(Column(left[i], q, q.columns[k]), Column(right[i], q, q.columns[k]), q.tolerance) {
          return false;
        }
      }
    }
    return true;
  }

  // ---------- one order for one set of rows ----------

  ghost predicate InOrder(rows: seq<seq<Value>>, q: Query, dump: Written) {
    forall i, j | 0 <= i < j < |rows| :: Leq(KeyOf(rows[i], q, dump), KeyOf(rows[j], q, dump))
  }

  lemma {:induction false} InsertKeepsOrder(sorted: seq<seq<Value>>, p: seq<Value>, q: Query, dump: Written)
    requires InOrder(sorted, q, dump)
    ensures InOrder(Insert(sorted, p, q, dump), q, dump)
    ensures multiset(Insert(sorted, p, q, dump)) == multiset(sorted) + multiset{p}
  {
    if sorted != [] {
      var before, last := sorted[..|sorted| - 1], sorted[|sorted| - 1];
      assert sorted == before + [last];
      if Leq(KeyOf(last, q, dump), KeyOf(p, q, dump)) {
        forall i | 0 <= i < |sorted| ensures Leq(KeyOf(sorted[i], q, dump), KeyOf(p, q, dump)) {
          LeqIsAnOrder(KeyOf(sorted[i], q, dump), KeyOf(last, q, dump), KeyOf(p, q, dump));
        }
      } else {
        LeqIsAnOrder(KeyOf(last, q, dump), KeyOf(p, q, dump), []);
        InsertKeepsOrder(before, p, q, dump);
        var most := Insert(before, p, q, dump);
        forall i | 0 <= i < |most| ensures Leq(KeyOf(most[i], q, dump), KeyOf(last, q, dump)) {
          assert most[i] in multiset(most);
          assert most[i] == p || most[i] in multiset(before);
        }
      }
    }
  }

  lemma EmptyIsInOrder(q: Query, dump: Written)
    ensures InOrder([], q, dump)
  {
  }

  lemma {:induction false} SortedIsInOrder(rows: seq<seq<Value>>, q: Query, dump: Written)
    ensures InOrder(Sorted(rows, q, dump), q, dump) && multiset(Sorted(rows, q, dump)) == multiset(rows)
  {
    hide Insert, InOrder;
    if rows == [] {
      assert InOrder([], q, dump) by { EmptyIsInOrder(q, dump); }
    } else {
      SortedIsInOrder(rows[..|rows| - 1], q, dump);
      InsertKeepsOrder(Sorted(rows[..|rows| - 1], q, dump), rows[|rows| - 1], q, dump);
      assert rows == rows[..|rows| - 1] + [rows[|rows| - 1]];
    }
  }

  /** Rows with one key are one row. */
  ghost predicate Identified(rows: seq<seq<Value>>, q: Query, dump: Written) {
    forall x, y | x in rows && y in rows :: KeyOf(x, q, dump) == KeyOf(y, q, dump) ==> x == y
  }

  lemma LastIsGreatest(a: seq<seq<Value>>, x: seq<Value>, q: Query, dump: Written)
    requires InOrder(a, q, dump) && x in a
    ensures Leq(KeyOf(x, q, dump), KeyOf(a[|a| - 1], q, dump))
  {
    var j :| 0 <= j < |a| && a[j] == x;
    if j == |a| - 1 {
      LeqIsAnOrder(KeyOf(x, q, dump), KeyOf(x, q, dump), []);
    }
  }

  lemma PrefixInOrder(a: seq<seq<Value>>, n: nat, q: Query, dump: Written)
    requires n <= |a| && InOrder(a, q, dump)
    ensures InOrder(a[..n], q, dump)
  {
  }

  lemma {:induction false} OneOrder(a: seq<seq<Value>>, b: seq<seq<Value>>, q: Query, dump: Written)
    requires InOrder(a, q, dump) && InOrder(b, q, dump) && multiset(a) == multiset(b) && Identified(a, q, dump)
    ensures a == b
  {
    hide InOrder, Leq, KeyOf;
    assert |a| == |multiset(a)| == |multiset(b)| == |b|;
    if a != [] {
      var n := |a| - 1;
      assert a[n] in multiset(b) && b[n] in multiset(a);
      LastIsGreatest(a, b[n], q, dump);
      LastIsGreatest(b, a[n], q, dump);
      LeqIsAnOrder(KeyOf(a[n], q, dump), KeyOf(b[n], q, dump), []);
      assert a[n] == b[n];
      assert a == a[..n] + [a[n]] && b == b[..n] + [b[n]];
      assert multiset(a[..n]) == multiset(a) - multiset{a[n]};
      assert multiset(b[..n]) == multiset(b) - multiset{b[n]};
      PrefixInOrder(a, n, q, dump);
      PrefixInOrder(b, n, q, dump);
      OneOrder(a[..n], b[..n], q, dump);
    }
  }

  // ---------- row order does not matter ----------

  /** Two values written alike are alike. */
  ghost predicate Faithful(dump: Written) {
    forall v: Value, w: Value :: dump(v) == dump(w) ==> v == w
  }

  lemma MarksIdentify(p: seq<Value>, r: seq<Value>, dump: Written)
    requires Faithful(dump) && Mark(p, dump) == Mark(r, dump)
    ensures p == r
  {
    forall i | 0 <= i < |p| ensures |p| == |r| && p[i] == r[i] {
      assert |Mark(p, dump)| == |Mark(r, dump)|;
      assert Mark(p, dump)[i] == dump(p[i]) && Mark(r, dump)[i] == dump(r[i]);
    }
    assert |Mark(p, dump)| == |Mark(r, dump)|;
  }

  lemma {:induction false} UniqueKeepsAll(rows: seq<seq<Value>>, dump: Written)
    requires Faithful(dump)
    ensures forall x :: x in Unique(rows, dump) <==> x in rows
    ensures forall i, j | 0 <= i < |Unique(rows, dump)| && 0 <= j < |Unique(rows, dump)| ::
              Unique(rows, dump)[i] == Unique(rows, dump)[j] ==> i == j
  {
    if rows != [] {
      var before, last := rows[..|rows| - 1], rows[|rows| - 1];
      UniqueKeepsAll(before, dump);
      assert rows == before + [last];
      var kept := Unique(before, dump);
      if k :| 0 <= k < |kept| && Mark(kept[k], dump) == Mark(last, dump) {
        MarksIdentify(kept[k], last, dump);
      }
    }
  }

  lemma {:induction false} OnceEach<T>(a: seq<T>, x: T)
    requires forall i, j | 0 <= i < |a| && 0 <= j < |a| :: a[i] == a[j] ==> i == j
    ensures multiset(a)[x] == if x in a then 1 else 0
  {
    if a != [] {
      var n := |a| - 1;
      assert a == a[..n] + [a[n]];
      OnceEach(a[..n], x);
    }
  }

  /** The rows as a comparison sees them: all of them, or each once. */
  ghost predicate SameRowSet(a: seq<Row>, b: seq<Row>, q: Query) {
    if q.distinct then forall p :: p in Project(a, q) <==> p in Project(b, q)
    else multiset(Project(a, q)) == multiset(Project(b, q))
  }

  lemma UniqueSets(a: seq<seq<Value>>, b: seq<seq<Value>>, dump: Written)
    requires Faithful(dump) && forall p :: p in a <==> p in b
    ensures multiset(Unique(a, dump)) == multiset(Unique(b, dump))
    ensures forall x :: x in Unique(a, dump) ==> x in a
  {
    UniqueKeepsAll(a, dump);
    UniqueKeepsAll(b, dump);
    hide Unique;
    var ua, ub := Unique(a, dump), Unique(b, dump);
    forall x ensures multiset(ua)[x] == multiset(ub)[x] {
      OnceEach(ua, x);
      OnceEach(ub, x);
    }
  }

  lemma SortedAlike(a: seq<seq<Value>>, b: seq<seq<Value>>, q: Query, dump: Written)
    requires multiset(a) == multiset(b) && Identified(a, q, dump)
    ensures Sorted(a, q, dump) == Sorted(b, q, dump)
  {
    SortedIsInOrder(a, q, dump);
    SortedIsInOrder(b, q, dump);
    hide Sorted, InOrder, KeyOf;
    forall x | x in Sorted(a, q, dump) ensures x in a {
      assert x in multiset(Sorted(a, q, dump));
    }
    OneOrder(Sorted(a, q, dump), Sorted(b, q, dump), q, dump);
  }

  /** Neither the order of the rows nor, where they are to be distinct, how often one occurs makes a difference,
      as long as the keys identify the rows. */
  lemma OrderDoesNotMatter(a: seq<Row>, b: seq<Row>, q: Query, dump: Written)
    requires Faithful(dump) && SameRowSet(a, b, q) && Identified(Project(a, q), q, dump)
    ensures Canonical(a, q, dump) == Canonical(b, q, dump)
  {
    hide Sorted, KeyOf, Project, Unique;
    if q.distinct {
      UniqueSets(Project(a, q), Project(b, q), dump);
      SortedAlike(Unique(Project(a, q), dump), Unique(Project(b, q), dump), q, dump);
    } else {
      SortedAlike(Project(a, q), Project(b, q), q, dump);
    }
  }

  /** With no key given, all the columns together are the key. */
  lemma AllColumnsIdentify(rows: seq<Row>, q: Query, dump: Written)
    requires Faithful(dump) && q.keys == []
    ensures Identified(Project(rows, q), q, dump)
  {
    var all := Project(rows, q);
    forall x, y | x in all && y in all && KeyOf(x, q, dump) == KeyOf(y, q, dump) ensures x == y {
      var i :| 0 <= i < |rows| && x == Projected(rows[i], q);
      var j :| 0 <= j < |rows| && y == Projected(rows[j], q);
      forall c | 0 <= c < |q.columns| ensures x[c] == y[c] {
        assert KeyOf(x, q, dump)[c] == dump(Column(x, q, q.columns[c]));
        assert KeyOf(y, q, dump)[c] == dump(Column(y, q, q.columns[c]));
        var at := Position(q.columns, q.columns[c]).value;
        assert x[at] == Get(rows[i], q.columns[c]) == x[c] && y[at] == Get(rows[j], q.columns[c]) == y[c];
      }
    }
  }

  /** The verdict is the same however either side orders its rows. */
  lemma VerdictIgnoresOrder(ac: seq<string>, a: seq<Row>, a': seq<Row>, tc: seq<string>, t: seq<Row>, t': seq<Row>,
                            q: Query, dump: Written)
    requires Faithful(dump) && SameRowSet(a, a', q) && SameRowSet(t, t', q)
    requires q.keys == [] || (Identified(Project(a, q), q, dump) && Identified(Project(t, q), q, dump))
    ensures SameResult(ac, a, tc, t, q, dump) <==> SameResult(ac, a', tc, t', q, dump)
  {
    if q.keys == [] {
      AllColumnsIdentify(a, q, dump);
      AllColumnsIdentify(t, q, dump);
    }
    OrderDoesNotMatter(a, a', q, dump);
    OrderDoesNotMatter(t, t', q, dump);
  }

  // ---------- the comparison is fair ----------

  lemma SameValueIsFair(v: Value, w: Value, tolerance: real, wider: real)
    requires 0.0 <= tolerance <= wider
    ensures SameValue(v, v, tolerance)
    ensures SameValue(v, w, tolerance) <==> SameValue(w, v, tolerance)
    ensures SameValue(v, w, tolerance) ==> SameValue(v, w, wider)
  {
  }

  /** A result is the same as itself, and which of two is called the truth makes no difference. */
  lemma VerdictIsFair(ac: seq<string>, a: seq<Row>, tc: seq<string>, t: seq<Row>, q: Query, dump: Written)
    requires q.tolerance >= 0.0
    ensures AllThere(q.columns, ac) ==> SameResult(ac, a, ac, a, q, dump)
    ensures SameResult(ac, a, tc, t, q, dump) <==> SameResult(tc, t, ac, a, q, dump)
  {
    hide SameValue, Canonical, Column;
    forall v, w
      ensures SameValue(v, v, q.tolerance)
      ensures SameValue(v, w, q.tolerance) <==> SameValue(w, v, q.tolerance)
    {
      SameValueIsFair(v, w, q.tolerance, q.tolerance);
    }
  }
}
