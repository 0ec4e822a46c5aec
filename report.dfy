/** The minute-data health report: which catalog codes have no 1-minute file, which
    ledger dates are malformed, which codes lag behind the most common ledger date,
    and the advice printed from those findings. */
module Report {
  import opened Wrappers
  import opened Text
  import opened Calendar
  import opened Tables
  import opened Ledger
  import opened Cli

  /** `format_date`: an eight-character string gets dashes after the year and the
      month; any other string is shown as it is. */
  function FormatDate(s: string): (r: string)
    ensures |s| != 8 ==> r == s
    ensures |s| == 8 ==> |r| == 10 && r[4] == '-' && r[7] == '-' && r[..4] + r[5..7] + r[8..] == s
  {
    if |s| == 8 then
      var r := s[..4] + "-" + s[4..6] + "-" + s[6..8];
      assert r[..4] == s[..4] && r[5..7] == s[4..6] && r[8..] == s[6..8];
      assert s == s[..4] + s[4..6] + s[6..8];
      r
    else s
  }

  /** A ledger date written by the daily path is rendered as the ISO date it names. */
  lemma FormatDateOfYmd(d: Date)
    ensures FormatDate(FormatYmd(d)) == FormatIso(d)
  {
  }

  /** A minute-frequency watermark also has eight characters, so it is cut up as if
      it were a date. */
  lemma FormatDateOfMinuteWatermark()
    ensures FormatDate("2024-06-") == "2024--0-6-"
  {
  }

  /** `check_basic_status`: without a stock catalog nothing is reported; otherwise the
      missing codes and, for display, the first twenty of them in sorted order. */
  method CheckBasicStatus(catalog: Option<seq<string>>, names: seq<string>)
    returns (status: Option<(set<string>, seq<string>)>)
    ensures catalog.None? <==> status.None?
    ensures catalog.Some? ==>
      var missing := MissingCodes(catalog.value, set n | n in names :: Stem(n));
      var shown := status.value.1;
      status.value.0 == missing &&
      |shown| == (if |missing| < 20 then |missing| else 20) &&
      StrictlyIncreasing(shown) &&
      (forall c :: c in shown ==> c in missing) &&
      (forall c, s :: c in missing && c !in shown && s in shown ==> StrLt(s, c))
  {
    if catalog.None? {
      return None;
    }
    var downloaded := CollectStems(names);
    var missing := MissingCodes(catalog.value, downloaded);
    var all := MissingList(catalog.value, downloaded);
    MissingListSpec(catalog.value, downloaded);
    var n := if |all| < 20 then |all| else 20;
    var shown := all[..n];
    forall c, s | c in missing && c !in shown && s in shown
      ensures StrLt(s, c)
    {
      var j :| 0 <= j < |all| && all[j] == c;
      var i :| 0 <= i < n && shown[i] == s;
      assert j >= n;
    }
    status := Some((missing, shown));
  }

  /** The rows of the metadata file whose `last_date` is not eight characters long. */
  function Abnormal(rows: seq<SyncRow>): (r: seq<SyncRow>)
    ensures forall x :: x in r <==> x in rows && |x.lastDate| != 8
    ensures |r| <= |rows|
  {
    if rows == [] then []
    else (if |rows[0].lastDate| != 8 then [rows[0]] else []) + Abnormal(rows[1..])
  }

  /** The length test does not catch the watermark a minute download records: it has
      eight characters yet names no date. */
  lemma AbnormalMissesMinuteWatermark(rows: seq<SyncRow>, code: string, freq: string, data: Table, end: string)
    requires data.rows != [] && data.column == TradeTime
    requires forall i :: 0 <= i < |data.rows| ==> |data.rows[i].key| >= 8 && data.rows[i].key[4] == '-'
    ensures var w := Watermark(freq, data, end);
      ParseYmd(w).None? && SyncRow(code, w) !in Abnormal(rows + [SyncRow(code, w)])
  {
    MinuteWatermarkIsNotADate(freq, data, end);
  }

  /** How many rows carry `date`. */
  function Count(rows: seq<SyncRow>, date: string): (n: nat)
    ensures n <= |rows|
  {
    if rows == [] then 0
    else (if rows[0].lastDate == date then 1 else 0) + Count(rows[1..], date)
  }

  lemma {:induction false} CountPositive(rows: seq<SyncRow>, date: string)
    requires Count(rows, date) > 0
    ensures exists i :: 0 <= i < |rows| && rows[i].lastDate == date
  {
    if rows[0].lastDate != date {
      CountPositive(rows[1..], date);
      var i :| 0 <= i < |rows[1..]| && rows[1..][i].lastDate == date;
      assert rows[i + 1].lastDate == date;
    }
  }

  /** The candidate with the highest count, the earliest one on a tie. */
  function Best(cands: seq<string>, rows: seq<SyncRow>): (r: string)
    requires cands != []
    ensures r in cands
    ensures forall c :: c in cands ==> Count(rows, c) <= Count(rows, r)
  {
    if |cands| == 1 then cands[0]
    else
      var b := Best(cands[1..], rows);
      assert forall c :: c in cands ==> c == cands[0] || c in cands[1..];
      if Count(rows, cands[0]) >= Count(rows, b) then cands[0] else b
  }

  /** `value_counts().index[0]`: the most frequent `last_date`, none for an empty
      file. */
  function MostCommon(rows: seq<SyncRow>): (r: Option<string>)
    ensures rows == [] <==> r.None?
    ensures r.Some? ==> exists i :: 0 <= i < |rows| && rows[i].lastDate == r.value
    ensures r.Some? ==> forall v :: Count(rows, v) <= Count(rows, r.value)
  {
    if rows == [] then None
    else
      var dates := seq(|rows|, i requires 0 <= i < |rows| => rows[i].lastDate);
      var b := Best(dates, rows);
      forall v ensures Count(rows, v) <= Count(rows, b) {
        if Count(rows, v) > 0 {
          CountPositive(rows, v);
          var i :| 0 <= i < |rows| && rows[i].lastDate == v;
          assert dates[i] == v;
        }
      }
      Some(b)
  }

  /** The rows whose date differs from `date`. */
  function Differing(rows: seq<SyncRow>, date: string): (r: seq<SyncRow>)
    ensures forall x :: x in r <==> x in rows && x.lastDate != date
  {
    if rows == [] then []
    else (if rows[0].lastDate != date then [rows[0]] else []) + Differing(rows[1..], date)
  }

  lemma {:induction false} DifferingCount(rows: seq<SyncRow>, date: string)
    ensures |Differing(rows, date)| + Count(rows, date) == |rows|
  {
    if rows != [] {
      DifferingCount(rows[1..], date);
    }
  }

  /** The rows `analyze_completeness` and `generate_recommendations` call outdated:
      those not at the most common date. */
  function Outdated(rows: seq<SyncRow>): seq<SyncRow> {
    match MostCommon(rows)
    case None => []
    case Some(m) => Differing(rows, m)
  }

  /** A row is outdated exactly when its date is not the most common one; no other
      choice of reference date would flag fewer rows; and nothing is outdated exactly
      when every row has the same date. */
  lemma OutdatedSpec(rows: seq<SyncRow>)
    ensures rows != [] ==> forall x :: x in Outdated(rows) <==> x in rows && x.lastDate != MostCommon(rows).value
    ensures forall v :: |Outdated(rows)| <= |rows| - Count(rows, v)
    ensures Outdated(rows) == [] <==> forall i, j :: 0 <= i < |rows| && 0 <= j < |rows| ==> rows[i].lastDate == rows[j].lastDate
  {
    if rows != [] {
      var m := MostCommon(rows).value;
      DifferingCount(rows, m);
      forall v ensures |Outdated(rows)| <= |rows| - Count(rows, v) {
      }
      if Outdated(rows) == [] {
        forall i, j | 0 <= i < |rows| && 0 <= j < |rows| ensures rows[i].lastDate == rows[j].lastDate {
          assert rows[i] !in Outdated(rows);
          assert rows[j] !in Outdated(rows);
        }
      } else {
        var x := Outdated(rows)[0];
        var i :| 0 <= i < |rows| && rows[i].lastDate == m;
        var j :| 0 <= j < |rows| && rows[j] == x;
        assert rows[i].lastDate != rows[j].lastDate;
      }
    }
  }

  /** One line of advice. */
  datatype Advice =
    | MissingData(codes: nat)
    | RunFill
    | MenuFill
    | OutdatedData(rows: nat)
    | RunIncremental
    | MenuIncremental

  /** `generate_recommendations`: three lines for missing files, three for outdated
      ledger rows; `meta` is none when the metadata file or its `last_date` column is
      absent. */
  method GenerateRecommendations(missing: set<string>, meta: Option<seq<SyncRow>>) returns (recs: seq<Advice>)
    ensures var stale := if meta.Some? then |Outdated(meta.value)| else 0;
      |recs| == (if |missing| > 0 then 3 else 0) + (if stale > 0 then 3 else 0) &&
      (recs == [] <==> |missing| == 0 && stale == 0) &&
      (|missing| > 0 ==> recs[..3] == [MissingData(|missing|), RunFill, MenuFill]) &&
      (stale > 0 ==> recs[|recs| - 3..] == [OutdatedData(stale), RunIncremental, MenuIncremental])
  {
    recs := [];
    if |missing| > 0 {
      recs := recs + [MissingData(|missing|), RunFill, MenuFill];
    }
    if meta.Some? {
      var outdated := Outdated(meta.value);
      if outdated != [] {
        recs := recs + [OutdatedData(|outdated|), RunIncremental, MenuIncremental];
      }
    }
  }
}
