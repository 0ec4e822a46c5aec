/** The sync ledger `meta/last_sync_<asset>_<freq>.csv`: one row per code with the
    last date synchronised, read back by the planner, upserted after each
    successful download, and the watermark that is written into it. */
module Ledger {
  import opened Wrappers
  import opened Text
  import opened Calendar
  import opened Tables

  datatype SyncRow = SyncRow(code: string, lastDate: string)

  /** What a ledger file holds: rows, or content that cannot be read as a table. */
  datatype LedgerFile = LedgerRows(rows: seq<SyncRow>) | LedgerUnreadable

  /** `get_last_sync_info`: a missing or unreadable file reads as an empty ledger. */
  function ReadLedger(f: Option<LedgerFile>): (rows: seq<SyncRow>)
    ensures f.Some? && f.value.LedgerRows? ==> rows == f.value.rows
    ensures f.None? || f.value.LedgerUnreadable? ==> rows == []
  {
    if f.Some? && f.value.LedgerRows? then f.value.rows else []
  }

  /** Row `i` is the first row for `code`. */
  predicate FirstRowFor(rows: seq<SyncRow>, code: string, i: int) {
    0 <= i < |rows| && rows[i].code == code && forall j :: 0 <= j < i ==> rows[j].code != code
  }

  /** `sync_info[sync_info['ts_code'] == code].iloc[0]['last_date']`: the date of the
      first row for `code`, if there is one. */
  function LastDateOf(rows: seq<SyncRow>, code: string): (r: Option<string>)
    ensures r.None? <==> forall i :: 0 <= i < |rows| ==> rows[i].code != code
    ensures r.Some? ==> exists i :: FirstRowFor(rows, code, i) && rows[i].lastDate == r.value
  {
    if rows == [] then None
    else if rows[0].code == code then
      assert FirstRowFor(rows, code, 0);
      Some(rows[0].lastDate)
    else
      var r := LastDateOf(rows[1..], code);
      if r.Some? then
        var i :| FirstRowFor(rows[1..], code, i) && rows[1..][i].lastDate == r.value;
        assert FirstRowFor(rows, code, i + 1) by {
          forall j | 0 <= j < i + 1 ensures rows[j].code != code {
            if j > 0 { assert rows[j] == rows[1..][j - 1]; }
          }
        }
        r
      else
        assert forall i :: 1 <= i < |rows| ==> rows[i] == rows[1..][i - 1];
        r
  }

  /** `sync_info[sync_info['ts_code'] != code]`. */
  function Without(rows: seq<SyncRow>, code: string): (r: seq<SyncRow>)
    ensures forall x :: x in r <==> x in rows && x.code != code
    ensures |r| <= |rows|
  {
    if rows == [] then []
    else if rows[0].code == code then Without(rows[1..], code)
    else [rows[0]] + Without(rows[1..], code)
  }

  /** Remove the code's rows, then append one row carrying the new date. */
  function Upsert(rows: seq<SyncRow>, code: string, date: string): seq<SyncRow> {
    Without(rows, code) + [SyncRow(code, date)]
  }

  lemma {:induction false} WithoutIdempotent(rows: seq<SyncRow>, code: string, other: string)
    requires other != code
    ensures Without(Without(rows, code), other) == Without(Without(rows, other), code)
  {
    if rows != [] {
      WithoutIdempotent(rows[1..], code, other);
    }
  }

  lemma {:induction false} WithoutAppendOther(rows: seq<SyncRow>, x: SyncRow, code: string)
    requires x.code == code
    ensures Without(rows + [x], code) == Without(rows, code)
  {
    if rows == [] {
      assert Without([x], code) == Without([], code);
    } else {
      assert (rows + [x])[1..] == rows[1..] + [x];
      WithoutAppendOther(rows[1..], x, code);
    }
  }

  lemma {:induction false} WithoutAppendKeep(rows: seq<SyncRow>, x: SyncRow, code: string)
    requires x.code != code
    ensures Without(rows + [x], code) == Without(rows, code) + [x]
  {
    if rows == [] {
      assert Without([x], code) == [x] + Without([], code);
    } else {
      assert (rows + [x])[1..] == rows[1..] + [x];
      WithoutAppendKeep(rows[1..], x, code);
    }
  }

  /** After an upsert the ledger holds exactly one row for the code, the last one,
      carrying the new date; the planner reads that date back; the rows of every other
      code are unchanged and in the same order. */
  lemma UpsertSpec(rows: seq<SyncRow>, code: string, date: string)
    ensures var r := Upsert(rows, code, date);
      (forall i :: 0 <= i < |r| ==> (r[i].code == code <==> i == |r| - 1)) &&
      r[|r| - 1].lastDate == date &&
      LastDateOf(r, code) == Some(date)
    ensures forall other :: other != code ==>
      Without(Upsert(rows, code, date), other) == Upsert(Without(rows, other), code, date)
    ensures forall other :: other != code ==>
      LastDateOf(Upsert(rows, code, date), other) == LastDateOf(rows, other)
  {
    var w := Without(rows, code);
    var r := Upsert(rows, code, date);
    forall i | 0 <= i < |r| ensures r[i].code == code <==> i == |r| - 1 {
      if i < |r| - 1 {
        assert r[i] in w;
      }
    }
    forall other | other != code
      ensures Without(r, other) == Upsert(Without(rows, other), code, date)
    {
      WithoutAppendKeep(w, SyncRow(code, date), other);
      WithoutIdempotent(rows, code, other);
    }
    forall other | other != code ensures LastDateOf(r, other) == LastDateOf(rows, other) {
      LastDateWithout(rows, code, other);
      LastDateAppend(w, SyncRow(code, date), other);
    }
  }

  lemma {:induction false} LastDateWithout(rows: seq<SyncRow>, code: string, other: string)
    requires other != code
    ensures LastDateOf(Without(rows, code), other) == LastDateOf(rows, other)
  {
    if rows != [] {
      LastDateWithout(rows[1..], code, other);
    }
  }

  lemma {:induction false} LastDateAppend(rows: seq<SyncRow>, x: SyncRow, other: string)
    requires x.code != other
    ensures LastDateOf(rows + [x], other) == LastDateOf(rows, other)
  {
    if rows == [] {
    } else {
      assert (rows + [x])[1..] == rows[1..] + [x];
      LastDateAppend(rows[1..], x, other);
    }
  }

  /** `max()` over a non-empty key column. */
  function MaxKey(rows: seq<Row>): (m: string)
    requires rows != []
    ensures exists i :: 0 <= i < |rows| && rows[i].key == m
    ensures forall i :: 0 <= i < |rows| ==> StrLe(rows[i].key, m)
  {
    if |rows| == 1 then StrLeRefl(rows[0].key); rows[0].key
    else
      var m := MaxKey(rows[1..]);
      StrLeTotal(rows[0].key, m);
      assert forall i :: 1 <= i < |rows| ==> rows[i] == rows[1..][i - 1];
      if StrLe(rows[0].key, m) then m
      else
        StrLeRefl(rows[0].key);
        forall i | 1 <= i < |rows| ensures StrLe(rows[i].key, rows[0].key) {
          StrLeTrans(rows[i].key, m, rows[0].key);
        }
        rows[0].key
  }

  /** The date recorded after a download: the greatest trade_date for daily data that
      has one, else the first eight characters of the greatest trade_time, else the
      end of the requested range. */
  function Watermark(freq: string, data: Table, end: string): (w: string)
    requires data.rows != []
    ensures freq == "daily" && data.column == TradeDate ==>
      (exists i :: 0 <= i < |data.rows| && data.rows[i].key == w) &&
      forall i :: 0 <= i < |data.rows| ==> StrLe(data.rows[i].key, w)
    ensures !(freq == "daily" && data.column == TradeDate) && data.column == TradeTime ==>
      (exists i :: 0 <= i < |data.rows| && w == Take(data.rows[i].key, 8)) &&
      forall i :: 0 <= i < |data.rows| ==> StrLe(Take(data.rows[i].key, 8), w)
    ensures !(freq == "daily" && data.column == TradeDate) && data.column != TradeTime ==> w == end
  {
    if freq == "daily" && data.column == TradeDate then MaxKey(data.rows)
    else if data.column == TradeTime then
      var m := MaxKey(data.rows);
      forall i | 0 <= i < |data.rows| ensures StrLe(Take(data.rows[i].key, 8), Take(m, 8)) {
        TakeMonotone(data.rows[i].key, m, 8);
      }
      Take(m, 8)
    else end
  }

  /** Cutting two strings to the same length keeps their order. */
  lemma {:induction false} TakeMonotone(a: string, b: string, n: nat)
    requires StrLe(a, b)
    ensures StrLe(Take(a, n), Take(b, n))
  {
    if n > 0 && |a| > 0 && |b| > 0 {
      if a[0] == b[0] {
        TakeMonotone(a[1..], b[1..], n - 1);
        assert Take(a, n) == [a[0]] + Take(a[1..], n - 1);
        assert Take(b, n) == [b[0]] + Take(b[1..], n - 1);
      } else {
        assert Take(a, n)[0] == a[0] && Take(b, n)[0] == b[0];
      }
    }
  }

  /** Minute bars keyed 'YYYY-MM-DD HH:MM:SS' leave a watermark such as '2024-06-'
      that no 'YYYYMMDD' parse accepts. */
  lemma MinuteWatermarkIsNotADate(freq: string, data: Table, end: string)
    requires data.rows != [] && data.column == TradeTime
    requires forall i :: 0 <= i < |data.rows| ==> |data.rows[i].key| >= 8 && data.rows[i].key[4] == '-'
    ensures |Watermark(freq, data, end)| == 8
    ensures ParseYmd(Watermark(freq, data, end)) == None
  {
    var m := MaxKey(data.rows);
    var w := Watermark(freq, data, end);
    assert w == Take(m, 8);
    assert w[4] == '-';
    assert !IsDigit(w[4]);
  }

  lemma MinuteWatermarkExample()
    ensures Watermark("minute_1", Table(TradeTime, [Row("600000.SH", "2024-06-28 15:00:00", 0)]), "20240628")
      == "2024-06-"
  {
  }
}
