/** Exactly when the comparison of two results does not look at the order of their rows. */
module TruthOrder {
  import opened Prelude
  import opened Truth

  type Key = seq<string>

  // ---------- the keys of sorted rows ----------

  function Keyed(rows: seq<seq<Value>>, q: Query, dump: Written): seq<Key> {
    seq(|rows|, i requires 0 <= i < |rows| => KeyOf(rows[i], q, dump))
  }

  /** Taking a row out takes its key out. */
  lemma KeyedWithout(rows: seq<seq<Value>>, j: nat, rest: seq<seq<Value>>, k: Key, q: Query, dump: Written)
    requires j < |rows| && rest == rows[..j] + rows[j + 1..] && k == KeyOf(rows[j], q, dump)
    ensures multiset(rest) == multiset(rows) - multiset{rows[j]}
    ensures k in multiset(Keyed(rows, q, dump))
    ensures multiset(Keyed(rest, q, dump)) == multiset(Keyed(rows, q, dump)) - multiset{k}
  {
    hide KeyOf;
    var keys := Keyed(rows, q, dump);
    assert Keyed(rest, q, dump) == keys[..j] + keys[j + 1..];
    WithoutOne(rows, j);
    WithoutOne(keys, j);
    assert keys[j] in keys;
  }

  lemma {:induction false} SameKeys(a: seq<seq<Value>>, b: seq<seq<Value>>, q: Query, dump: Written)
    requires multiset(a) == multiset(b)
    ensures multiset(Keyed(a, q, dump)) == multiset(Keyed(b, q, dump))
    decreases |a|
  {
    hide KeyOf, Keyed;
    assert |a| == |multiset(a)| == |multiset(b)| == |b|;
    if a == [] {
      assert a == b;
    } else {
      assert a[0] in multiset(b);
      var j :| 0 <= j < |b| && b[j] == a[0];
      var restA, restB, k := a[..0] + a[1..], b[..j] + b[j + 1..], KeyOf(a[0], q, dump);
      KeyedWithout(a, 0, restA, k, q, dump);
      KeyedWithout(b, j, restB, k, q, dump);
      SameKeys(restA, restB, q, dump);
      BackTogether(multiset(Keyed(a, q, dump)), multiset(Keyed(b, q, dump)), k);
    }
  }

  lemma BackTogether(a: multiset<Key>, b: multiset<Key>, k: Key)
    requires k in a && k in b && a - multiset{k} == b - multiset{k}
    ensures a == b
  {
    assert a == (a - multiset{k}) + multiset{k};
    assert b == (b - multiset{k}) + multiset{k};
  }

  ghost predicate Ascending(keys: seq<Key>) {
    forall i, j | 0 <= i < j < |keys| :: Leq(keys[i], keys[j])
  }

  lemma {:induction false} OneKeyOrder(a: seq<Key>, b: seq<Key>)
    requires Ascending(a) && Ascending(b) && multiset(a) == multiset(b)
    ensures a == b
  {
    hide Leq, Ascending;
    assert |a| == |multiset(a)| == |multiset(b)| == |b|;
    if a != [] {
      var n := |a| - 1;
      assert a[n] in multiset(b) && b[n] in multiset(a);
      GreatestIsLast(a, b[n]);
      GreatestIsLast(b, a[n]);
      LeqIsAnOrder(a[n], b[n], []);
      assert a[n] == b[n];
      WithoutLast(a);
      WithoutLast(b);
      PrefixAscends(a, n);
      PrefixAscends(b, n);
      OneKeyOrder(a[..n], b[..n]);
      assert a == a[..n] + [a[n]] && b == b[..n] + [b[n]];
    }
  }

  lemma WithoutLast(keys: seq<Key>)
    requires keys != []
    ensures multiset(keys[..|keys| - 1]) == multiset(keys) - multiset{keys[|keys| - 1]}
  {
    assert keys == keys[..|keys| - 1] + [keys[|keys| - 1]];
  }

  lemma PrefixAscends(keys: seq<Key>, n: nat)
    requires n <= |keys| && Ascending(keys)
    ensures Ascending(keys[..n])
  {
  }

  lemma GreatestIsLast(keys: seq<Key>, k: Key)
    requires Ascending(keys) && k in keys
    ensures Leq(k, keys[|keys| - 1])
  {
    var j :| 0 <= j < |keys| && keys[j] == k;
    if j == |keys| - 1 {
      LeqIsAnOrder(k, k, []);
    }
  }

  /** Two orders of the same rows are sorted to the same keys. */
  lemma SortedKeys(a: seq<seq<Value>>, b: seq<seq<Value>>, q: Query, dump: Written)
    requires multiset(a) == multiset(b)
    ensures Keyed(Sorted(a, q, dump), q, dump) == Keyed(Sorted(b, q, dump), q, dump)
  {
    SortedIsInOrder(a, q, dump);
    SortedIsInOrder(b, q, dump);
    hide Sorted, KeyOf, Leq;
    SameKeys(Sorted(a, q, dump), Sorted(b, q, dump), q, dump);
    OneKeyOrder(Keyed(Sorted(a, q, dump), q, dump), Keyed(Sorted(b, q, dump), q, dump));
  }

  // ---------- rows of one key ----------

  /** The rows with key `k`, in their order. */
  function Class(rows: seq<seq<Value>>, k: Key, q: Query, dump: Written): seq<seq<Value>> {
    if rows == [] then []
    else
      var last := rows[|rows| - 1];
      Class(rows[..|rows| - 1], k, q, dump) + if KeyOf(last, q, dump) == k then [last] else []
  }

  lemma ClassSnoc(rows: seq<seq<Value>>, x: seq<Value>, k: Key, q: Query, dump: Written)
    ensures Class(rows + [x], k, q, dump) == Class(rows, k, q, dump) + if KeyOf(x, q, dump) == k then [x] else []
  {
    assert (rows + [x])[..|rows|] == rows;
  }

  lemma {:induction false} InsertIsStable(sorted: seq<seq<Value>>, p: seq<Value>, k: Key, q: Query, dump: Written)
    ensures Class(Insert(sorted, p, q, dump), k, q, dump)
         == Class(sorted, k, q, dump) + if KeyOf(p, q, dump) == k then [p] else []
  {
    hide KeyOf;
    if sorted == [] {
      assert [p] == [] + [p];
      ClassSnoc([], p, k, q, dump);
    } else {
      var before, last := sorted[..|sorted| - 1], sorted[|sorted| - 1];
      assert sorted == before + [last];
      if Leq(KeyOf(last, q, dump), KeyOf(p, q, dump)) {
        ClassSnoc(sorted, p, k, q, dump);
      } else {
        InsertIsStable(before, p, k, q, dump);
        ClassSnoc(Insert(before, p, q, dump), last, k, q, dump);
        ClassSnoc(before, last, k, q, dump);
      }
    }
  }

  lemma {:induction false} SortIsStable(rows: seq<seq<Value>>, k: Key, q: Query, dump: Written)
    ensures Class(Sorted(rows, q, dump), k, q, dump) == Class(rows, k, q, dump)
  {
    hide Insert, KeyOf;
    if rows != [] {
      var before, last := rows[..|rows| - 1], rows[|rows| - 1];
      SortIsStable(before, k, q, dump);
      InsertIsStable(Sorted(before, q, dump), last, k, q, dump);
    }
  }

  function Count(keys: seq<Key>, k: Key): nat {
    if keys == [] then 0 else Count(keys[..|keys| - 1], k) + if keys[|keys| - 1] == k then 1 else 0
  }

  /** Where `k` occurs for the `t`th time. */
  function Nth(keys: seq<Key>, k: Key, t: nat): (r: nat)
    requires t < Count(keys, k)
    ensures r < |keys|
  {
    var before := keys[..|keys| - 1];
    if t < Count(before, k) then Nth(before, k, t) else |before|
  }

  lemma {:induction false} ClassIsAtNth(rows: seq<seq<Value>>, k: Key, t: nat, q: Query, dump: Written)
    ensures |Class(rows, k, q, dump)| == Count(Keyed(rows, q, dump), k)
    ensures t < |Class(rows, k, q, dump)| ==>
              rows[Nth(Keyed(rows, q, dump), k, t)] == Class(rows, k, q, dump)[t]
  {
    hide KeyOf;
    if rows != [] {
      var before := rows[..|rows| - 1];
      assert Keyed(rows, q, dump)[..|before|] == Keyed(before, q, dump);
      ClassIsAtNth(before, k, t, q, dump);
    }
  }

  lemma {:induction false} ClassGrows(rows: seq<seq<Value>>, p: nat, k: Key, q: Query, dump: Written)
    requires p <= |rows|
    ensures Class(rows[..p], k, q, dump) <= Class(rows, k, q, dump)
    decreases |rows| - p
  {
    if p == |rows| {
      assert rows[..p] == rows;
    } else {
      assert rows[..p + 1][..p] == rows[..p];
      ClassGrows(rows, p + 1, k, q, dump);
    }
  }

  /** Rows of one key that come to the same place in two orders of the same rows are compared with each other. */
  lemma ComparedWith(a: seq<seq<Value>>, b: seq<seq<Value>>, p: nat, q: Query, dump: Written) returns (m: nat)
    requires multiset(a) == multiset(b) && p < |a| && p < |b| && a[..p] == b[..p]
    requires KeyOf(a[p], q, dump) == KeyOf(b[p], q, dump)
    ensures m < |Sorted(a, q, dump)| && m < |Sorted(b, q, dump)|
    ensures Sorted(a, q, dump)[m] == a[p] && Sorted(b, q, dump)[m] == b[p]
  {
    hide KeyOf, Sorted;
    var k := KeyOf(a[p], q, dump);
    var t := |Class(a[..p], k, q, dump)|;
    IsNth(a, p, q, dump);
    IsNth(b, p, q, dump);
    SortIsStable(a, k, q, dump);
    SortIsStable(b, k, q, dump);
    var sa, sb := Sorted(a, q, dump), Sorted(b, q, dump);
    ClassIsAtNth(sa, k, t, q, dump);
    ClassIsAtNth(sb, k, t, q, dump);
    SortedKeys(a, b, q, dump);
    m := Nth(Keyed(sa, q, dump), k, t);
  }

  lemma IsNth(rows: seq<seq<Value>>, p: nat, q: Query, dump: Written)
    requires p < |rows|
    ensures var k := KeyOf(rows[p], q, dump);
            var t := |Class(rows[..p], k, q, dump)|;
            t < |Class(rows, k, q, dump)| && Class(rows, k, q, dump)[t] == rows[p]
  {
    hide KeyOf;
    var k := KeyOf(rows[p], q, dump);
    assert rows[..p + 1] == rows[..p] + [rows[p]];
    ClassSnoc(rows[..p], rows[p], k, q, dump);
    ClassGrows(rows, p + 1, k, q, dump);
  }

  // ---------- the exact condition ----------

  /** Rows that share a key are the same as far as the comparison goes. */
  ghost predicate TiesAgree(rows: seq<seq<Value>>, q: Query, dump: Written) {
    forall x, y | x in rows && y in rows :: KeyOf(x, q, dump) == KeyOf(y, q, dump) ==> SameRow(x, y, q)
  }

  /** The rows that are sorted. */
  function Kept(rows: seq<seq<Value>>, q: Query, dump: Written): seq<seq<Value>> {
    if q.distinct then Unique(rows, dump) else rows
  }

  lemma KeptAlike(a: seq<Row>, b: seq<Row>, q: Query, dump: Written)
    requires Faithful(dump) && SameRowSet(a, b, q)
    ensures multiset(Kept(Project(a, q), q, dump)) == multiset(Kept(Project(b, q), q, dump))
    ensures forall x :: x in Kept(Project(a, q), q, dump) ==> x in Project(a, q)
  {
    if q.distinct {
      UniqueSets(Project(a, q), Project(b, q), dump);
    }
  }

  lemma AgreeingTiesAreEnough(a: seq<Row>, b: seq<Row>, q: Query, dump: Written)
    requires Faithful(dump) && SameRowSet(a, b, q) && TiesAgree(Project(a, q), q, dump)
    ensures SameRows(Canonical(a, q, dump), Canonical(b, q, dump), q)
  {
    KeptAlike(a, b, q, dump);
    var ka, kb := Kept(Project(a, q), q, dump), Kept(Project(b, q), q, dump);
    hide Unique, Project, SameRow, KeyOf;
    SortedIsInOrder(ka, q, dump);
    SortedIsInOrder(kb, q, dump);
    SortedKeys(ka, kb, q, dump);
    var sa, sb := Sorted(ka, q, dump), Sorted(kb, q, dump);
    hide Sorted;
    assert |sa| == |Keyed(sa, q, dump)| == |Keyed(sb, q, dump)| == |sb|;
    forall i | 0 <= i < |sa| ensures SameRow(sa[i], sb[i], q) {
      assert sa[i] in multiset(ka) && sb[i] in multiset(kb);
      assert Keyed(sa, q, dump)[i] == Keyed(sb, q, dump)[i];
    }
  }

  /** The first occurrence of a row is kept, behind what is kept of the rows before it. */
  lemma {:induction false} FirstIsKept(rows: seq<seq<Value>>, i: nat, q: Query, dump: Written)
    requires Faithful(dump) && i < |rows| && rows[i] !in rows[..i]
    ensures var p := |Kept(rows[..i], q, dump)|;
            p < |Kept(rows, q, dump)| && Kept(rows, q, dump)[..p] == Kept(rows[..i], q, dump)
            && Kept(rows, q, dump)[p] == rows[i]
    decreases |rows|
  {
    hide Mark;
    if q.distinct {
      var before, last := rows[..|rows| - 1], rows[|rows| - 1];
      if i == |rows| - 1 {
        var kept := Unique(before, dump);
        UniqueKeepsAll(before, dump);
        forall k | 0 <= k < |kept| ensures Mark(kept[k], dump) != Mark(last, dump) {
          if Mark(kept[k], dump) == Mark(last, dump) {
            MarksIdentify(kept[k], last, dump);
          }
        }
      } else {
        assert before[..i] == rows[..i];
        FirstIsKept(before, i, q, dump);
      }
    }
  }

  lemma SameRowIsMutual(x: seq<Value>, y: seq<Value>, q: Query)
    requires SameRow(x, y, q)
    ensures SameRow(y, x, q)
  {
  }

  lemma {:induction false} FirstOf(rows: seq<seq<Value>>, x: seq<Value>) returns (i: nat)
    requires x in rows
    ensures i < |rows| && rows[i] == x && x !in rows[..i]
  {
    var before := rows[..|rows| - 1];
    if x in before {
      i := FirstOf(before, x);
      assert before[..i] == rows[..i];
    } else {
      i := |rows| - 1;
    }
  }

  /** The first of two rows that share a key and differ change places. */
  lemma Swapped(a: seq<Row>, i: nat, j: nat, q: Query, dump: Written) returns (b: seq<Row>)
    requires Faithful(dump) && i < j < |a|
    requires Project(a, q)[i] !in Project(a, q)[..i] && Project(a, q)[j] !in Project(a, q)[..j]
    requires KeyOf(Project(a, q)[i], q, dump) == KeyOf(Project(a, q)[j], q, dump)
    requires !SameRow(Project(a, q)[i], Project(a, q)[j], q)
    ensures SameRowSet(a, b, q) && !SameRows(Canonical(a, q, dump), Canonical(b, q, dump), q)
  {
    hide KeyOf, SameRow, Projected;
    b := a[i := a[j]][j := a[i]];
    var pa, pb := Project(a, q), Project(b, q);
    assert pb == pa[i := pa[j]][j := pa[i]];
    assert multiset(pa) == multiset(pb);
    assert forall p :: p in pa <==> p in multiset(pa);
    assert forall p :: p in pb <==> p in multiset(pb);
    assert SameRowSet(a, b, q);
    KeptAlike(a, b, q, dump);
    assert pb[..i] == pa[..i];
    assert pa[j] !in pa[..i] by { assert pa[..i] == pa[..j][..i]; }
    FirstIsKept(pa, i, q, dump);
    FirstIsKept(pb, i, q, dump);
    hide Project, Kept, Faithful;
    var m := ComparedWith(Kept(pa, q, dump), Kept(pb, q, dump), |Kept(pa[..i], q, dump)|, q, dump);
    assert Canonical(a, q, dump) == Sorted(Kept(pa, q, dump), q, dump) by { CanonicalIs(a, q, dump); }
    assert Canonical(b, q, dump) == Sorted(Kept(pb, q, dump), q, dump) by { CanonicalIs(b, q, dump); }
  }

  lemma CanonicalIs(rows: seq<Row>, q: Query, dump: Written)
    ensures Canonical(rows, q, dump) == Sorted(Kept(Project(rows, q), q, dump), q, dump)
  {
  }

  /** A result is the same as every reordering of itself (and, with distinct, as every repetition) if and only if its
      rows that share a key are the same as far as the comparison goes. */
  lemma OrderMattersExactly(columns: seq<string>, a: seq<Row>, q: Query, dump: Written)
    requires Faithful(dump) && AllThere(q.columns, columns)
    ensures (forall b :: SameRowSet(a, b, q) ==> SameResult(columns, a, columns, b, q, dump))
       <==> TiesAgree(Project(a, q), q, dump)
  {
    hide Canonical, Faithful, KeyOf, SameRow, Project, SameRows, AllThere;
    if TiesAgree(Project(a, q), q, dump) {
      forall b | SameRowSet(a, b, q) ensures SameResult(columns, a, columns, b, q, dump) {
        AgreeingTiesAreEnough(a, b, q, dump);
      }
    } else {
      var x, y :| x in Project(a, q) && y in Project(a, q)
                  && KeyOf(x, q, dump) == KeyOf(y, q, dump) && !SameRow(x, y, q);
      var b := Disagreeing(a, x, y, q, dump);
      assert !SameResult(columns, a, columns, b, q, dump);
    }
  }

  lemma Disagreeing(a: seq<Row>, x: seq<Value>, y: seq<Value>, q: Query, dump: Written) returns (b: seq<Row>)
    requires Faithful(dump) && x in Project(a, q) && y in Project(a, q)
    requires KeyOf(x, q, dump) == KeyOf(y, q, dump) && !SameRow(x, y, q)
    ensures SameRowSet(a, b, q) && !SameRows(Canonical(a, q, dump), Canonical(b, q, dump), q)
  {
    hide Canonical, Faithful, KeyOf, SameRow, SameRows;
    assert |Project(a, q)| == |a|;
    hide Project;
    var i := FirstOf(Project(a, q), x);
    var j := FirstOf(Project(a, q), y);
    if i < j {
      b := Swapped(a, i, j, q, dump);
    } else if j < i {
      if SameRow(y, x, q) {
        SameRowIsMutual(y, x, q);
      }
      b := Swapped(a, j, i, q, dump);
    } else {
      b := a;
      NotItself(a, i, q, dump);
    }
  }

  lemma NotItself(a: seq<Row>, i: nat, q: Query, dump: Written)
    requires Faithful(dump) && i < |a| && Project(a, q)[i] !in Project(a, q)[..i]
    requires !SameRow(Project(a, q)[i], Project(a, q)[i], q)
    ensures SameRowSet(a, a, q) && !SameRows(Canonical(a, q, dump), Canonical(a, q, dump), q)
  {
    hide KeyOf, SameRow, Projected;
    var pa := Project(a, q);
    assert |pa| == |a|;
    hide Project;
    FirstIsKept(pa, i, q, dump);
    hide Kept;
    var p := |Kept(pa[..i], q, dump)|;
    var m := ComparedWith(Kept(pa, q, dump), Kept(pa, q, dump), p, q, dump);
    CanonicalIs(a, q, dump);
  }

  // ---------- what is told apart ----------

  /** Texts are the same only letter by letter; numbers within the tolerance; a truth value is the same as its number
      and as no other; nothing is the same as no value but itself. */
  lemma SameValueExactly(v: Value, w: Value, tolerance: real)
    requires tolerance >= 0.0
    ensures v.Text? || w.Text? ==> (SameValue(v, w, tolerance) <==> v == w)
    ensures v.Null? || w.Null? ==> (SameValue(v, w, tolerance) <==> v == w)
    ensures v.Float? && w.Float? ==> (SameValue(v, w, tolerance) <==> v.r - tolerance <= w.r <= v.r + tolerance)
    ensures v.Int? && w.Int? ==>
              (SameValue(v, w, tolerance) <==> v.n as real - tolerance <= w.n as real <= v.n as real + tolerance)
    ensures v.Int? && w.Float? ==>
              (SameValue(v, w, tolerance) <==> v.n as real - tolerance <= w.r <= v.n as real + tolerance)
    ensures v.Bool? && w.Bool? ==> (SameValue(v, w, tolerance) <==> v == w)
    ensures v.Bool? && w.Int? ==> (SameValue(v, w, tolerance) <==> w.n == if v.b then 1 else 0)
    ensures v.Bool? && w.Float? ==> (SameValue(v, w, tolerance) <==> w.r == if v.b then 1.0 else 0.0)
    ensures SameValue(v, w, tolerance) <==> SameValue(w, v, tolerance)
  {
  }

  /** Two results are told apart whenever some row of one has, in a column that counts, a value that no row of the other
      has the same of there. */
  lemma ToldApart(ac: seq<string>, a: seq<Row>, tc: seq<string>, t: seq<Row>, q: Query, dump: Written, i: nat, c: nat)
    requires Faithful(dump) && i < |a| && c < |q.columns|
    requires forall j :: 0 <= j < |t| ==>
               !SameValue(Get(a[i], q.columns[c]), Get(t[j], q.columns[c]), q.tolerance)
    ensures !SameResult(ac, a, tc, t, q, dump)
  {
    hide SameValue, AllThere;
    if SameResult(ac, a, tc, t, q, dump) {
      var m := ComparedAt(a, i, q, dump);
      var j := ComesFrom(t, m, q, dump);
      var (x, y) := (Canonical(a, q, dump)[m], Canonical(t, q, dump)[m]);
      assert SameRow(x, y, q);
      assert SameValue(Column(x, q, q.columns[c]), Column(y, q, q.columns[c]), q.tolerance);
      ColumnIs(a[i], q, c);
      ColumnIs(t[j], q, c);
    }
  }

  /** The different rows of a result, in the columns that count. */
  function Different(rows: seq<Row>, q: Query): set<seq<Value>> {
    set row | row in rows :: Projected(row, q)
  }

  lemma {:induction false} OnceEachCounts(rows: seq<seq<Value>>)
    requires forall i, j | 0 <= i < |rows| && 0 <= j < |rows| :: rows[i] == rows[j] ==> i == j
    ensures |rows| == |set x | x in rows|
  {
    if rows != [] {
      var before, last := rows[..|rows| - 1], rows[|rows| - 1];
      OnceEachCounts(before);
      assert rows == before + [last];
      assert (set x | x in rows) == (set x | x in before) + {last};
    }
  }

  lemma HowMany(a: seq<Row>, q: Query, dump: Written)
    ensures |Canonical(a, q, dump)| == |Kept(Project(a, q), q, dump)|
    ensures !q.distinct ==> |Canonical(a, q, dump)| == |a|
    ensures q.distinct && Faithful(dump) ==> |Canonical(a, q, dump)| == |Different(a, q)|
  {
    hide Sorted, Projected;
    var rows := Project(a, q);
    var kept := Kept(rows, q, dump);
    CanonicalIs(a, q, dump);
    SortedIsInOrder(kept, q, dump);
    assert |multiset(Sorted(kept, q, dump))| == |multiset(kept)|;
    if q.distinct && Faithful(dump) {
      UniqueKeepsAll(rows, dump);
      OnceEachCounts(kept);
      assert forall row :: row in a ==> Projected(row, q) in rows by {
        assert forall i :: 0 <= i < |a| ==> rows[i] == Projected(a[i], q);
      }
      assert (set x | x in kept) == Different(a, q);
    }
  }

  /** Results are the same only if both have every column that counts, and as many rows: as many different ones, if the
      query is for distinct rows. */
  lemma SameHasAll(ac: seq<string>, a: seq<Row>, tc: seq<string>, t: seq<Row>, q: Query, dump: Written)
    requires SameResult(ac, a, tc, t, q, dump)
    ensures forall column :: column in q.columns ==> column in ac && column in tc
    ensures !q.distinct ==> |a| == |t|
    ensures q.distinct && Faithful(dump) ==> |Different(a, q)| == |Different(t, q)|
  {
    HowMany(a, q, dump);
    HowMany(t, q, dump);
    hide Canonical, SameRow, Different;
    forall column | column in q.columns ensures column in ac && column in tc {
      var k :| 0 <= k < |q.columns| && q.columns[k] == column;
    }
  }

  lemma ColumnIs(row: Row, q: Query, c: nat)
    requires c < |q.columns|
    ensures Column(Projected(row, q), q, q.columns[c]) == Get(row, q.columns[c])
  {
    assert q.columns[c] in q.columns;
  }

  /** Every row is compared, at some place. */
  lemma ComparedAt(a: seq<Row>, i: nat, q: Query, dump: Written) returns (m: nat)
    requires Faithful(dump) && i < |a|
    ensures m < |Canonical(a, q, dump)| && Canonical(a, q, dump)[m] == Projected(a[i], q)
  {
    hide Sorted, Projected;
    var rows := Project(a, q);
    var kept := Kept(rows, q, dump);
    assert rows[i] in rows;
    if q.distinct {
      UniqueKeepsAll(rows, dump);
    }
    assert rows[i] in kept;
    SortedIsInOrder(kept, q, dump);
    CanonicalIs(a, q, dump);
    assert rows[i] in multiset(kept);
    m :| 0 <= m < |Canonical(a, q, dump)| && Canonical(a, q, dump)[m] == rows[i];
  }

  /** And everything that is compared is a row. */
  lemma ComesFrom(t: seq<Row>, m: nat, q: Query, dump: Written) returns (j: nat)
    requires Faithful(dump) && m < |Canonical(t, q, dump)|
    ensures j < |t| && Canonical(t, q, dump)[m] == Projected(t[j], q)
  {
    hide Sorted, Projected;
    var rows := Project(t, q);
    var kept := Kept(rows, q, dump);
    SortedIsInOrder(kept, q, dump);
    CanonicalIs(t, q, dump);
    assert Canonical(t, q, dump)[m] in multiset(kept);
    if q.distinct {
      UniqueKeepsAll(rows, dump);
    }
    assert Canonical(t, q, dump)[m] in rows;
    j :| 0 <= j < |rows| && rows[j] == Canonical(t, q, dump)[m];
  }
}
