/** Row tables as the downloader handles them: bars keyed by
    (ts_code, trade_date) or (ts_code, trade_time), de-duplicated keeping the
    last occurrence and sorted code ascending, key descending. */
module Tables {
  import opened Text

  /** Which key column a table carries. */
  datatype KeyColumn = TradeDate | TradeTime | NoKey

  /** One bar: its ts_code, the text of its key column and its other columns,
      abstracted to one value. */
  datatype Row = Row(code: string, key: string, payload: int)

  datatype Table = Table(column: KeyColumn, rows: seq<Row>)

  /** `pd.DataFrame()`: no columns, no rows. */
  const EmptyTable := Table(NoKey, [])

  type Key = (string, string)

  function KeyOf(r: Row): Key {
    (r.code, r.key)
  }

  function Keys(rows: seq<Row>): set<Key> {
    set x | x in rows :: KeyOf(x)
  }

  predicate UniqueKeys(rows: seq<Row>) {
    forall i, j :: 0 <= i < j < |rows| ==> KeyOf(rows[i]) != KeyOf(rows[j])
  }

  lemma KeysConcat(a: seq<Row>, b: seq<Row>)
    ensures Keys(a + b) == Keys(a) + Keys(b)
  {
    assert forall x :: x in a + b <==> x in a || x in b;
  }

  lemma KeysCons(s: seq<Row>)
    requires s != []
    ensures Keys(s) == {KeyOf(s[0])} + Keys(s[1..])
  {
    assert s == [s[0]] + s[1..];
    KeysConcat([s[0]], s[1..]);
  }

  /** A table with one row per key has as many keys as rows. */
  lemma {:induction false} UniqueKeysCount(s: seq<Row>)
    requires UniqueKeys(s)
    ensures |Keys(s)| == |s|
  {
    if s != [] {
      KeysCons(s);
      UniqueKeysCount(s[1..]);
      assert KeyOf(s[0]) !in Keys(s[1..]);
    }
  }

  /** The last row of `rows` whose key is `k`. */
  function LastRowOf(rows: seq<Row>, k: Key): (x: Row)
    requires k in Keys(rows)
    ensures x in rows && KeyOf(x) == k
  {
    KeysCons(rows);
    if k in Keys(rows[1..]) then LastRowOf(rows[1..], k) else rows[0]
  }

  /** On a key collision between two tables concatenated, the later table's row wins. */
  lemma {:induction false} LastRowOfConcat(a: seq<Row>, b: seq<Row>, k: Key)
    requires k in Keys(a + b)
    ensures k in Keys(b) ==> LastRowOf(a + b, k) == LastRowOf(b, k)
    ensures k !in Keys(b) ==> k in Keys(a) && LastRowOf(a + b, k) == LastRowOf(a, k)
    decreases |a|
  {
    KeysConcat(a, b);
    if a == [] {
      assert a + b == b;
    } else {
      assert (a + b)[0] == a[0] && (a + b)[1..] == a[1..] + b;
      KeysConcat(a[1..], b);
      KeysCons(a);
      if k in Keys(a[1..] + b) {
        LastRowOfConcat(a[1..], b, k);
      }
    }
  }

  /** `drop_duplicates(subset=['ts_code', key], keep='last')`. */
  function DedupKeepLast(rows: seq<Row>): seq<Row> {
    if rows == [] then []
    else if KeyOf(rows[0]) in Keys(rows[1..]) then DedupKeepLast(rows[1..])
    else [rows[0]] + DedupKeepLast(rows[1..])
  }

  lemma {:induction false} DedupKeepLastKeys(rows: seq<Row>)
    ensures Keys(DedupKeepLast(rows)) == Keys(rows)
    ensures forall x :: x in DedupKeepLast(rows) ==> x in rows
  {
    if rows != [] {
      DedupKeepLastKeys(rows[1..]);
      KeysCons(rows);
      if KeyOf(rows[0]) !in Keys(rows[1..]) {
        KeysCons(DedupKeepLast(rows));
        assert DedupKeepLast(rows)[1..] == DedupKeepLast(rows[1..]);
      }
    }
  }

  lemma {:induction false} DedupKeepLastUnique(rows: seq<Row>)
    ensures UniqueKeys(DedupKeepLast(rows))
  {
    if rows != [] {
      var rest := rows[1..];
      DedupKeepLastUnique(rest);
      if KeyOf(rows[0]) !in Keys(rest) {
        var d := DedupKeepLast(rows);
        var t := DedupKeepLast(rest);
        assert d == [rows[0]] + t;
        DedupKeepLastKeys(rest);
        forall i, j | 0 <= i < j < |d| ensures KeyOf(d[i]) != KeyOf(d[j]) {
          if i == 0 {
            assert d[j] == t[j - 1];
            assert d[j] in t;
          } else {
            assert d[i] == t[i - 1] && d[j] == t[j - 1];
          }
        }
      }
    }
  }

  lemma {:induction false} DedupKeepLastLast(rows: seq<Row>)
    ensures forall x :: x in DedupKeepLast(rows) ==> KeyOf(x) in Keys(rows) && x == LastRowOf(rows, KeyOf(x))
  {
    if rows != [] {
      var rest := rows[1..];
      DedupKeepLastLast(rest);
      KeysCons(rows);
      DedupKeepLastKeys(rest);
      forall x | x in DedupKeepLast(rows)
        ensures KeyOf(x) in Keys(rows) && x == LastRowOf(rows, KeyOf(x))
      {
        if x != rows[0] || KeyOf(rows[0]) in Keys(rest) {
          assert x in DedupKeepLast(rest);
        }
      }
    }
  }

  /** De-duplication keeps every key exactly once, and the row it keeps for a key is
      the last one with that key. */
  lemma DedupKeepLastSpec(rows: seq<Row>)
    ensures Keys(DedupKeepLast(rows)) == Keys(rows)
    ensures UniqueKeys(DedupKeepLast(rows))
    ensures forall x :: x in DedupKeepLast(rows) ==> KeyOf(x) in Keys(rows) && x == LastRowOf(rows, KeyOf(x))
    ensures |DedupKeepLast(rows)| == |Keys(rows)|
  {
    DedupKeepLastKeys(rows);
    DedupKeepLastUnique(rows);
    DedupKeepLastLast(rows);
    UniqueKeysCount(DedupKeepLast(rows));
  }

  /** The order of a stored table: ts_code ascending, then key descending. */
  predicate RowLe(a: Row, b: Row) {
    StrLt(a.code, b.code) || (a.code == b.code && StrLe(b.key, a.key))
  }

  lemma RowLeTotal(a: Row, b: Row)
    ensures RowLe(a, b) || RowLe(b, a)
  {
    StrLeTotal(a.code, b.code);
    StrLeTotal(a.key, b.key);
  }

  lemma RowLeTrans(a: Row, b: Row, c: Row)
    requires RowLe(a, b) && RowLe(b, c)
    ensures RowLe(a, c)
  {
    if a.code == b.code && b.code == c.code {
      StrLeTrans(c.key, b.key, a.key);
    } else {
      StrLeRefl(b.code);
      StrLeTrans(a.code, b.code, c.code);
      if a.code == c.code {
        StrLeAntisym(a.code, b.code);
      }
    }
  }

  /** Rows sharing a key are tied; otherwise the order is strict. */
  lemma RowLeAntisym(a: Row, b: Row)
    requires RowLe(a, b) && RowLe(b, a)
    ensures KeyOf(a) == KeyOf(b)
  {
    if a.code != b.code {
      StrLeAntisym(a.code, b.code);
    } else {
      StrLeAntisym(a.key, b.key);
    }
  }

  predicate Sorted(rows: seq<Row>) {
    forall i, j :: 0 <= i < j < |rows| ==> RowLe(rows[i], rows[j])
  }

  function Insert(x: Row, s: seq<Row>): seq<Row> {
    if s == [] then [x]
    else if RowLe(x, s[0]) then [x] + s
    else [s[0]] + Insert(x, s[1..])
  }

  /** `sort_values(['ts_code', key], ascending=[True, False])`, as an insertion sort
      (stable: tied rows keep their input order). */
  function SortRows(s: seq<Row>): seq<Row> {
    if s == [] then [] else Insert(s[0], SortRows(s[1..]))
  }

  lemma {:induction false} InsertElements(x: Row, s: seq<Row>)
    ensures multiset(Insert(x, s)) == multiset(s) + multiset{x}
  {
    if s != [] && !RowLe(x, s[0]) {
      InsertElements(x, s[1..]);
      assert s == [s[0]] + s[1..];
      calc {
        multiset(Insert(x, s));
        multiset([s[0]] + Insert(x, s[1..]));
        multiset([s[0]]) + multiset(Insert(x, s[1..]));
        multiset([s[0]]) + multiset(s[1..]) + multiset{x};
      }
    }
  }

  lemma {:induction false} InsertMembers(x: Row, s: seq<Row>)
    ensures forall y :: y in Insert(x, s) <==> y == x || y in s
  {
    if s != [] && !RowLe(x, s[0]) {
      InsertMembers(x, s[1..]);
      assert s == [s[0]] + s[1..];
    }
  }

  lemma {:induction false} InsertSorted(x: Row, s: seq<Row>)
    requires Sorted(s)
    ensures Sorted(Insert(x, s))
  {
    if s == [] {
    } else if RowLe(x, s[0]) {
      var r := [x] + s;
      forall i, j | 0 <= i < j < |r| ensures RowLe(r[i], r[j]) {
        if i == 0 && j > 1 {
          RowLeTrans(x, s[0], s[j - 1]);
        }
      }
    } else {
      RowLeTotal(x, s[0]);
      var tail := Insert(x, s[1..]);
      InsertSorted(x, s[1..]);
      InsertMembers(x, s[1..]);
      var r := [s[0]] + tail;
      forall j | 0 <= j < |tail| ensures RowLe(s[0], tail[j]) {
        assert tail[j] in tail;
        if tail[j] != x {
          var m :| 0 <= m < |s[1..]| && s[1..][m] == tail[j];
          assert s[m + 1] == tail[j];
        }
      }
      forall i, j | 0 <= i < j < |r| ensures RowLe(r[i], r[j]) {
        if i == 0 {
          assert r[j] == tail[j - 1];
        } else {
          assert r[i] == tail[i - 1] && r[j] == tail[j - 1];
        }
      }
    }
  }

  lemma InsertSpec(x: Row, s: seq<Row>)
    requires Sorted(s)
    ensures Sorted(Insert(x, s))
    ensures multiset(Insert(x, s)) == multiset(s) + multiset{x}
  {
    InsertSorted(x, s);
    InsertElements(x, s);
  }

  /** Sorting yields a sorted permutation of its input. */
  lemma {:induction false} SortRowsSpec(s: seq<Row>)
    ensures Sorted(SortRows(s))
    ensures multiset(SortRows(s)) == multiset(s)
  {
    if s != [] {
      SortRowsSpec(s[1..]);
      InsertSpec(s[0], SortRows(s[1..]));
      assert s == [s[0]] + s[1..];
    }
  }

  /** Permuting rows keeps their keys and whether each key occurs once. */
  lemma PermutationKeys(a: seq<Row>, b: seq<Row>)
    requires multiset(a) == multiset(b)
    ensures Keys(a) == Keys(b)
    ensures forall x :: x in a <==> x in b
  {
    assert forall x :: x in a <==> x in multiset(a);
    assert forall x :: x in b <==> x in multiset(b);
  }

  lemma {:induction false} UniqueKeysFromCount(s: seq<Row>)
    requires |Keys(s)| == |s|
    ensures UniqueKeys(s)
  {
    if s != [] {
      KeysCons(s);
      var k := KeyOf(s[0]);
      if k in Keys(s[1..]) {
        KeysBound(s[1..]);
        assert false;
      }
      UniqueKeysFromCount(s[1..]) by {
        assert |Keys(s[1..])| == |Keys(s)| - 1;
      }
      forall i, j | 0 <= i < j < |s| ensures KeyOf(s[i]) != KeyOf(s[j]) {
        if i == 0 {
          assert s[j] in s[1..];
        } else {
          assert s[i] == s[1..][i - 1] && s[j] == s[1..][j - 1];
        }
      }
    }
  }

  lemma {:induction false} KeysBound(s: seq<Row>)
    ensures |Keys(s)| <= |s|
  {
    if s != [] {
      KeysCons(s);
      KeysBound(s[1..]);
    }
  }

  /** Sorting keeps the one-row-per-key property. */
  lemma SortKeepsUnique(s: seq<Row>)
    requires UniqueKeys(s)
    ensures UniqueKeys(SortRows(s)) && Keys(SortRows(s)) == Keys(s)
    ensures forall x :: x in SortRows(s) <==> x in s
  {
    SortRowsSpec(s);
    PermutationKeys(s, SortRows(s));
    UniqueKeysCount(s);
    assert |SortRows(s)| == |s| by {
      assert |multiset(SortRows(s))| == |multiset(s)|;
    }
    UniqueKeysFromCount(SortRows(s));
  }

  /** In a sorted table with one row per key the order is strict: code ascending,
      and for one code the key strictly descending. */
  lemma SortedUniqueStrict(s: seq<Row>, i: int, j: int)
    requires Sorted(s) && UniqueKeys(s) && 0 <= i < j < |s|
    ensures StrLt(s[i].code, s[j].code) || (s[i].code == s[j].code && StrLt(s[j].key, s[i].key))
  {
  }

  /** The merge of stored rows with newly fetched rows: concatenate existing then incoming,
      keep the last row per key, sort. */
  function MergeRows(existing: seq<Row>, incoming: seq<Row>): seq<Row> {
    SortRows(DedupKeepLast(existing + incoming))
  }

  /** Every key of either side is present exactly once; on a collision the incoming row
      wins, otherwise the existing row is kept; the result is sorted. */
  lemma MergeRowsSpec(existing: seq<Row>, incoming: seq<Row>)
    ensures Sorted(MergeRows(existing, incoming)) && UniqueKeys(MergeRows(existing, incoming))
    ensures Keys(MergeRows(existing, incoming)) == Keys(existing) + Keys(incoming)
    ensures |MergeRows(existing, incoming)| == |Keys(existing) + Keys(incoming)|
    ensures forall x :: x in MergeRows(existing, incoming) && KeyOf(x) in Keys(incoming) ==>
      x == LastRowOf(incoming, KeyOf(x))
    ensures forall x :: x in MergeRows(existing, incoming) && KeyOf(x) !in Keys(incoming) ==>
      KeyOf(x) in Keys(existing) && x == LastRowOf(existing, KeyOf(x))
    ensures forall k :: k in Keys(incoming) ==> LastRowOf(incoming, k) in MergeRows(existing, incoming)
  {
    var all := existing + incoming;
    DedupKeepLastSpec(all);
    KeysConcat(existing, incoming);
    var d := DedupKeepLast(all);
    SortKeepsUnique(d);
    SortRowsSpec(d);
    assert |SortRows(d)| == |d| by {
      assert |multiset(SortRows(d))| == |multiset(d)|;
    }
    forall x | x in MergeRows(existing, incoming)
      ensures KeyOf(x) in Keys(incoming) ==> x == LastRowOf(incoming, KeyOf(x))
      ensures KeyOf(x) !in Keys(incoming) ==> KeyOf(x) in Keys(existing) && x == LastRowOf(existing, KeyOf(x))
    {
      LastRowOfConcat(existing, incoming, KeyOf(x));
    }
    forall k | k in Keys(incoming) ensures LastRowOf(incoming, k) in MergeRows(existing, incoming) {
      assert k in Keys(d);
      var x :| x in d && KeyOf(x) == k;
      LastRowOfConcat(existing, incoming, k);
    }
  }

  /** With one row per key on each side, the merged size is the sum of the sizes less
      the number of colliding keys. */
  lemma MergeRowsCount(existing: seq<Row>, incoming: seq<Row>)
    requires UniqueKeys(existing) && UniqueKeys(incoming)
    ensures |MergeRows(existing, incoming)| == |existing| + |incoming| - |Keys(existing) * Keys(incoming)|
  {
    MergeRowsSpec(existing, incoming);
    UniqueKeysCount(existing);
    UniqueKeysCount(incoming);
    UnionCount(Keys(existing), Keys(incoming));
  }

  lemma UnionCount<T>(a: set<T>, b: set<T>)
    ensures |a + b| == |a| + |b| - |a * b|
  {
    assert a + b == (a - b) + b;
    assert a == (a - b) + (a * b);
    assert (a - b) !! (a * b);
    assert (a - b) !! b;
  }
}
