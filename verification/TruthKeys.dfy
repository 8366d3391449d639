/** A query that names keys: every row is compared with the row of the other side that has its key. */
module TruthKeys {
  import opened Prelude
  import opened Truth
  import opened TruthOrder

  /** The key of a row as it is written. A key that is not among the columns that count is null in every row. */
  function WrittenKey(row: Row, q: Query, dump: Written): Key {
    seq(|q.keys|, i requires 0 <= i < |q.keys| => dump(if q.keys[i] in q.columns then Get(row, q.keys[i]) else Null))
  }

  function WrittenKeys(rows: seq<Row>, q: Query, dump: Written): seq<Key> {
    seq(|rows|, i requires 0 <= i < |rows| => WrittenKey(rows[i], q, dump))
  }

  /** Rows with one key have the same values in the columns that count. */
  ghost predicate KeysIdentify(rows: seq<Row>, q: Query, dump: Written) {
    forall x, y | x in rows && y in rows :: WrittenKey(x, q, dump) == WrittenKey(y, q, dump) ==>
                                              Projected(x, q) == Projected(y, q)
  }

  /** Both sides have the same keys: each equally often, unless the query is for distinct rows. */
  ghost predicate KeysMatch(a: seq<Row>, t: seq<Row>, q: Query, dump: Written) {
    var ka, kt := WrittenKeys(a, q, dump), WrittenKeys(t, q, dump);
    if q.distinct then forall k: Key :: k in ka <==> k in kt else multiset(ka) == multiset(kt)
  }

  /** Two rows agree in every column that counts. */
  predicate Agree(x: Row, y: Row, q: Query) {
    forall column :: column in q.columns ==> SameValue(Get(x, column), Get(y, column), q.tolerance)
  }

  lemma KeyIsWritten(row: Row, q: Query, dump: Written)
    requires q.keys != []
    ensures KeyOf(Projected(row, q), q, dump) == WrittenKey(row, q, dump)
  {
    forall i | 0 <= i < |q.keys|
      ensures Column(Projected(row, q), q, q.keys[i]) == if q.keys[i] in q.columns then Get(row, q.keys[i]) else Null
    {
    }
  }

  lemma KeysAreWritten(rows: seq<Row>, q: Query, dump: Written)
    requires q.keys != []
    ensures Keyed(Project(rows, q), q, dump) == WrittenKeys(rows, q, dump)
  {
    hide KeyOf, WrittenKey, Projected;
    forall i | 0 <= i < |rows| ensures KeyOf(Projected(rows[i], q), q, dump) == WrittenKey(rows[i], q, dump) {
      KeyIsWritten(rows[i], q, dump);
    }
  }

  lemma AgreeIsSameRow(x: Row, y: Row, q: Query)
    ensures Agree(x, y, q) <==> SameRow(Projected(x, q), Projected(y, q), q)
  {
    hide SameValue, Projected, Column;
    forall c | 0 <= c < |q.columns|
      ensures Column(Projected(x, q), q, q.columns[c]) == Get(x, q.columns[c])
           && Column(Projected(y, q), q, q.columns[c]) == Get(y, q.columns[c])
    {
      ColumnIs(x, q, c);
      ColumnIs(y, q, c);
    }
    assert forall c :: 0 <= c < |q.columns| ==> q.columns[c] in q.columns;
  }

  // ---------- both sides are sorted to the same keys ----------

  /** Of distinct rows every key is kept, and once. */
  lemma KeptOnce(a: seq<Row>, q: Query, dump: Written)
    requires Faithful(dump) && q.keys != [] && q.distinct && KeysIdentify(a, q, dump)
    ensures var keys := Keyed(Kept(Project(a, q), q, dump), q, dump);
            && (forall i, j | 0 <= i < |keys| && 0 <= j < |keys| :: keys[i] == keys[j] ==> i == j)
            && forall k: Key :: k in keys <==> k in WrittenKeys(a, q, dump)
  {
    hide KeyOf, WrittenKey, Projected, Unique;
    var rows := Project(a, q);
    var kept := Unique(rows, dump);
    var keys := Keyed(kept, q, dump);
    UniqueKeepsAll(rows, dump);
    KeysAreWritten(a, q, dump);
    forall i, j | 0 <= i < |keys| && 0 <= j < |keys| && keys[i] == keys[j] ensures i == j {
      assert kept[i] in kept && kept[j] in kept;
      var x :| 0 <= x < |rows| && rows[x] == kept[i];
      var y :| 0 <= y < |rows| && rows[y] == kept[j];
      assert Keyed(rows, q, dump)[x] == WrittenKeys(a, q, dump)[x];
      assert Keyed(rows, q, dump)[y] == WrittenKeys(a, q, dump)[y];
      assert a[x] in a && a[y] in a;
    }
    forall k: Key ensures k in keys <==> k in WrittenKeys(a, q, dump) {
      if k in keys {
        var i :| 0 <= i < |keys| && keys[i] == k;
        assert kept[i] in kept;
        var x :| 0 <= x < |rows| && rows[x] == kept[i];
        assert Keyed(rows, q, dump)[x] == k;
      }
      if k in WrittenKeys(a, q, dump) {
        var x :| 0 <= x < |a| && Keyed(rows, q, dump)[x] == k;
        assert rows[x] in kept;
        var i :| 0 <= i < |kept| && kept[i] == rows[x];
        assert keys[i] == k;
      }
    }
  }

  lemma KeptKeys(a: seq<Row>, t: seq<Row>, q: Query, dump: Written)
    requires Faithful(dump) && q.keys != []
    requires KeysIdentify(a, q, dump) && KeysIdentify(t, q, dump) && KeysMatch(a, t, q, dump)
    ensures multiset(Keyed(Kept(Project(a, q), q, dump), q, dump))
         == multiset(Keyed(Kept(Project(t, q), q, dump), q, dump))
  {
    KeysAreWritten(a, q, dump);
    KeysAreWritten(t, q, dump);
    if q.distinct {
      KeptOnce(a, q, dump);
      KeptOnce(t, q, dump);
      hide Keyed, Kept, Project, WrittenKeys, KeysIdentify;
      var ka, kt := Keyed(Kept(Project(a, q), q, dump), q, dump), Keyed(Kept(Project(t, q), q, dump), q, dump);
      forall k: Key ensures multiset(ka)[k] == multiset(kt)[k] {
        OnceEach(ka, k);
        OnceEach(kt, k);
      }
    }
  }

  lemma CanonicalKeys(a: seq<Row>, t: seq<Row>, q: Query, dump: Written)
    requires Faithful(dump) && q.keys != []
    requires KeysIdentify(a, q, dump) && KeysIdentify(t, q, dump) && KeysMatch(a, t, q, dump)
    ensures Keyed(Canonical(a, q, dump), q, dump) == Keyed(Canonical(t, q, dump), q, dump)
  {
    KeptKeys(a, t, q, dump);
    CanonicalIs(a, q, dump);
    CanonicalIs(t, q, dump);
    hide Canonical, Kept, Project, KeysIdentify, KeysMatch, Sorted, KeyOf, Leq;
    var ra, rt := Kept(Project(a, q), q, dump), Kept(Project(t, q), q, dump);
    SortedIsInOrder(ra, q, dump);
    SortedIsInOrder(rt, q, dump);
    SameKeys(Sorted(ra, q, dump), ra, q, dump);
    SameKeys(Sorted(rt, q, dump), rt, q, dump);
    OneKeyOrder(Keyed(Sorted(ra, q, dump), q, dump), Keyed(Sorted(rt, q, dump), q, dump));
  }

  // ---------- so each row meets its own ----------

  /** With keys that identify the rows, and the same keys on both sides, results are the same if and only if both have
      every column that counts and any two rows with one key agree in all of them. */
  lemma PairedByKey(ac: seq<string>, a: seq<Row>, tc: seq<string>, t: seq<Row>, q: Query, dump: Written)
    requires Faithful(dump) && q.keys != []
    requires KeysIdentify(a, q, dump) && KeysIdentify(t, q, dump) && KeysMatch(a, t, q, dump)
    ensures SameResult(ac, a, tc, t, q, dump)
       <==> && (forall column :: column in q.columns ==> column in ac && column in tc)
            && forall x, y | x in a && y in t :: WrittenKey(x, q, dump) == WrittenKey(y, q, dump) ==> Agree(x, y, q)
  {
    CanonicalKeys(a, t, q, dump);
    var ca, ct := Canonical(a, q, dump), Canonical(t, q, dump);
    var keys := Keyed(ca, q, dump);
    assert |ca| == |keys| == |ct|;
    hide Canonical, KeyOf, WrittenKey, Agree, SameRow, Projected, KeysMatch;
    assert forall k :: 0 <= k < |q.columns| ==> q.columns[k] in q.columns;
    if SameRows(ca, ct, q) {
      forall x, y | x in a && y in t && WrittenKey(x, q, dump) == WrittenKey(y, q, dump) ensures Agree(x, y, q) {
        var i :| 0 <= i < |a| && a[i] == x;
        var m := ComparedAt(a, i, q, dump);
        var j := ComesFrom(t, m, q, dump);
        assert keys[m] == KeyOf(ca[m], q, dump) == KeyOf(ct[m], q, dump);
        KeyIsWritten(x, q, dump);
        KeyIsWritten(t[j], q, dump);
        assert t[j] in t && Projected(t[j], q) == Projected(y, q);
        AgreeIsSameRow(x, y, q);
      }
    }
    if forall x, y | x in a && y in t :: WrittenKey(x, q, dump) == WrittenKey(y, q, dump) ==> Agree(x, y, q) {
      forall m | 0 <= m < |ca| ensures SameRow(ca[m], ct[m], q) {
        var i := ComesFrom(a, m, q, dump);
        var j := ComesFrom(t, m, q, dump);
        assert keys[m] == KeyOf(ca[m], q, dump) == KeyOf(ct[m], q, dump);
        KeyIsWritten(a[i], q, dump);
        KeyIsWritten(t[j], q, dump);
        assert a[i] in a && t[j] in t;
        AgreeIsSameRow(a[i], t[j], q);
      }
    }
  }
}
