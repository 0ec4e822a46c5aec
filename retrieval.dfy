/** The data service as the downloader sees it: `_retry_call`, the calendar-month
    batching of `download_minutes_batch`, and the daily and minute fetches of the
    three asset classes. The service itself is an oracle: the outcome of every
    attempt of every request is a parameter. */
module Retrieval {
  import opened Wrappers
  import opened Text
  import opened Calendar
  import opened Tables
  import opened Settings
  import opened Catalog

  /** One request to the data service: the endpoint and its arguments. Daily
      endpoints take no frequency (""). */
  datatype Call = Call(api: string, code: string, freq: string, start: string, end: string)

  /** What one attempt of a request does. */
  datatype Outcome = Rows(table: Table) | Raises

  /** The data service: the outcome of attempt number n (from 0) of each request. */
  type Remote = (Call, nat) -> Outcome

  /** What `_retry_call` gives its caller: the first table returned, the exception
      of the last attempt, or the `None` it falls through to when `retry` is zero
      or negative. */
  datatype CallResult = Returned(table: Table) | Raised | ReturnedNone

  /** `config.get('retry', 3)`. */
  function RetryCount(cfg: Config): int {
    cfg.retry.GetOr(3)
  }

  // ---------------------------------------------------------------- retry

  /** Every attempt before attempt `a` raised. */
  predicate FailsBefore(remote: Remote, call: Call, a: nat) {
    forall b: nat :: b < a ==> remote(call, b).Raises?
  }

  /** The attempts from `a` on, the last permitted one re-raising. */
  function RetryFrom(remote: Remote, call: Call, retry: int, a: nat): CallResult
    requires a < retry
    decreases retry - a
  {
    match remote(call, a)
    case Rows(t) => Returned(t)
    case Raises => if a + 1 == retry then Raised else RetryFrom(remote, call, retry, a + 1)
  }

  /** `_retry_call(func, ...)` with `retry` permitted attempts. */
  function RetryOutcome(remote: Remote, call: Call, retry: int): CallResult {
    if retry <= 0 then ReturnedNone else RetryFrom(remote, call, retry, 0)
  }

  /** Some attempt before `retry` returned `t`, every attempt before it having raised. */
  predicate FirstReturns(remote: Remote, call: Call, retry: int, t: Table) {
    exists b: nat :: b < retry && FailsBefore(remote, call, b) && remote(call, b) == Rows(t)
  }

  lemma {:induction false} RetryFromRaised(remote: Remote, call: Call, retry: int, a: nat)
    requires a < retry && FailsBefore(remote, call, a)
    ensures RetryFrom(remote, call, retry, a) == Raised <==> FailsBefore(remote, call, retry)
    ensures RetryFrom(remote, call, retry, a) != ReturnedNone
    decreases retry - a
  {
    if remote(call, a).Raises? {
      assert FailsBefore(remote, call, a + 1);
      if a + 1 < retry {
        RetryFromRaised(remote, call, retry, a + 1);
      }
    }
  }

  lemma {:induction false} RetryFromReturned(remote: Remote, call: Call, retry: int, a: nat, t: Table)
    requires a < retry && FailsBefore(remote, call, a)
    ensures RetryFrom(remote, call, retry, a) == Returned(t) <==> FirstReturns(remote, call, retry, t)
    decreases retry - a
  {
    if remote(call, a).Raises? {
      assert FailsBefore(remote, call, a + 1);
      if a + 1 < retry {
        RetryFromReturned(remote, call, retry, a + 1, t);
      } else {
        forall b: nat | b < retry ensures remote(call, b).Raises? {
        }
      }
    } else {
      forall b: nat | b < retry && FailsBefore(remote, call, b) && remote(call, b).Rows? ensures b == a {
      }
      if remote(call, a) == Rows(t) {
        assert a < retry && FailsBefore(remote, call, a) && remote(call, a) == Rows(t);
      }
    }
  }

  /** `_retry_call` makes no attempt and returns `None` when `retry` is not positive;
      otherwise it re-raises exactly when every permitted attempt raised, and returns
      the table of the first attempt that did not raise. */
  lemma RetryOutcomeSpec(remote: Remote, call: Call, retry: int)
    ensures RetryOutcome(remote, call, retry) == ReturnedNone <==> retry <= 0
    ensures RetryOutcome(remote, call, retry) == Raised <==> retry > 0 && FailsBefore(remote, call, retry)
    ensures forall t :: RetryOutcome(remote, call, retry) == Returned(t) <==> FirstReturns(remote, call, retry, t)
  {
    if retry > 0 {
      RetryFromRaised(remote, call, retry, 0);
      forall t ensures RetryOutcome(remote, call, retry) == Returned(t) <==> FirstReturns(remote, call, retry, t) {
        RetryFromReturned(remote, call, retry, 0, t);
      }
    }
  }

  /** The attempt loop of `_retry_call`; `attempts` counts the requests made. */
  method RetryCall(remote: Remote, call: Call, retry: int) returns (r: CallResult, attempts: nat)
    ensures r == RetryOutcome(remote, call, retry)
    ensures retry <= 0 ==> attempts == 0
    ensures retry > 0 ==> 1 <= attempts <= retry
    ensures r == Raised ==> attempts == retry
    ensures r.Returned? ==>
      attempts >= 1 && FailsBefore(remote, call, attempts - 1) && remote(call, attempts - 1) == Rows(r.table)
  {
    attempts := 0;
    while attempts < retry
      invariant retry > 0 ==> attempts < retry
      invariant retry <= 0 ==> attempts == 0
      invariant FailsBefore(remote, call, attempts)
      invariant retry > 0 ==> RetryOutcome(remote, call, retry) == RetryFrom(remote, call, retry, attempts)
      decreases retry - attempts
    {
      var outcome := remote(call, attempts);
      attempts := attempts + 1;
      match outcome {
        case Rows(t) =>
          r := Returned(t);
          return;
        case Raises =>
          if attempts == retry {
            r := Raised;
            return;
          }
      }
    }
    r := ReturnedNone;
  }

  // ---------------------------------------------------------------- month batches

  /** One request's worth of days: a stretch of one calendar month. */
  datatype Batch = Batch(first: Date, last: Date)

  /** `min(next_month_start - timedelta(days=1), end_dt)`. */
  function BatchEnd(cur: Date, e: Date): Date {
    var monthEnd := Prev(FirstOfNextMonth(cur));
    if Ymd(monthEnd) <= Ymd(e) then monthEnd else e
  }

  /** The batches the `while current_start <= end_dt` loop walks through from `cur`.
      December 9999 is excluded because the loop's `replace(year=10000)` raises. */
  function MonthBatches(cur: Date, e: Date): seq<Batch>
    requires Valid(cur) && Valid(e) && !InLastMonth(e)
    decreases if Ymd(cur) <= Ymd(e) then Ymd(e) - Ymd(cur) + 1 else 0
  {
    if Ymd(e) < Ymd(cur) then []
    else
      FirstOfNextMonthFacts(cur);
      [Batch(cur, BatchEnd(cur, e))] + MonthBatches(FirstOfNextMonth(cur), e)
  }

  /** A batch of the range ending at `e`: two valid dates in order, in one calendar
      month, not after `e`. */
  predicate BatchOk(b: Batch, e: Date) {
    Valid(b.first) && Valid(b.last) && Ymd(b.first) <= Ymd(b.last) <= Ymd(e) &&
    b.first.year == b.last.year && b.first.month == b.last.month
  }

  /** `b` ends on the last day of its month and `c` begins the next day, the first
      of the following month. */
  predicate Adjacent(b: Batch, c: Batch) {
    c.first == Next(b.last) && c.first.day == 1 &&
    b.last.day == DaysInMonth(b.last.year, b.last.month) && Ymd(b.last) < Ymd(c.first)
  }

  predicate Within(b: Batch, d: Date) {
    Ymd(b.first) <= Ymd(d) <= Ymd(b.last)
  }

  /** The first batch from `cur`: a well-formed batch that runs to the end of the
      month, or to `e` when `e` comes first. */
  lemma BatchHead(cur: Date, e: Date)
    requires Valid(cur) && Valid(e) && !InLastMonth(e) && Ymd(cur) <= Ymd(e)
    ensures !InLastMonth(cur)
    ensures BatchOk(Batch(cur, BatchEnd(cur, e)), e)
    ensures Valid(FirstOfNextMonth(cur)) && Ymd(BatchEnd(cur, e)) < Ymd(FirstOfNextMonth(cur))
    ensures Ymd(FirstOfNextMonth(cur)) <= Ymd(e) ==>
      Adjacent(Batch(cur, BatchEnd(cur, e)), Batch(FirstOfNextMonth(cur), BatchEnd(FirstOfNextMonth(cur), e)))
    ensures Ymd(e) < Ymd(FirstOfNextMonth(cur)) ==> BatchEnd(cur, e) == e
    ensures forall d :: Valid(d) && Ymd(BatchEnd(cur, e)) < Ymd(d) <= Ymd(e) ==> Ymd(FirstOfNextMonth(cur)) <= Ymd(d)
  {
    assert Ymd(e) < 99991201;
    FirstOfNextMonthFacts(cur);
    var monthEnd := Date(cur.year, cur.month, DaysInMonth(cur.year, cur.month));
    var next := FirstOfNextMonth(cur);
    assert BatchEnd(cur, e) == if Ymd(monthEnd) <= Ymd(e) then monthEnd else e;
    if Ymd(e) < Ymd(monthEnd) {
      SameMonth(cur, e, monthEnd);
    }
    forall d | Valid(d) && Ymd(monthEnd) < Ymd(d) ensures Ymd(next) <= Ymd(d) {
      NextIsSuccessor(monthEnd, d);
    }
  }

  /** A valid date between two days of one month lies in that month. */
  lemma SameMonth(a: Date, b: Date, c: Date)
    requires Valid(a) && Valid(b) && Valid(c) && a.year == c.year && a.month == c.month
    requires Ymd(a) <= Ymd(b) <= Ymd(c)
    ensures b.year == a.year && b.month == a.month
  {
    var u, v := b.year * 100 + b.month, a.year * 100 + a.month;
    assert v * 100 < Ymd(b) < v * 100 + 100;
    assert u * 100 < Ymd(b) < u * 100 + 100;
    assert u == v;
  }

  /** The batches start at the start and end at the end; each is a stretch of one
      month after `cur`; consecutive batches are adjacent. */
  lemma {:induction false} MonthBatchesShape(cur: Date, e: Date)
    requires Valid(cur) && Valid(e) && !InLastMonth(e) && Ymd(cur) <= Ymd(e)
    ensures var r := MonthBatches(cur, e);
      r != [] && r[0].first == cur && r[|r| - 1].last == e &&
      (forall i :: 0 <= i < |r| ==> BatchOk(r[i], e) && Ymd(cur) <= Ymd(r[i].first)) &&
      (forall i :: 1 <= i < |r| ==> Adjacent(r[i - 1], r[i]))
    decreases Ymd(e) - Ymd(cur)
  {
    BatchHead(cur, e);
    var n := FirstOfNextMonth(cur);
    var r := MonthBatches(cur, e);
    if Ymd(n) <= Ymd(e) {
      MonthBatchesShape(n, e);
      var rest := MonthBatches(n, e);
      assert r == [Batch(cur, BatchEnd(cur, e))] + rest;
      assert forall i :: 1 <= i < |r| ==> r[i] == rest[i - 1];
    }
  }

  /** The batches are in calendar order and do not overlap. */
  lemma {:induction false} MonthBatchesOrdered(cur: Date, e: Date)
    requires Valid(cur) && Valid(e) && !InLastMonth(e) && Ymd(cur) <= Ymd(e)
    ensures var r := MonthBatches(cur, e);
      forall i, j :: 0 <= i < j < |r| ==> Ymd(r[i].last) < Ymd(r[j].first)
    decreases Ymd(e) - Ymd(cur)
  {
    BatchHead(cur, e);
    var n := FirstOfNextMonth(cur);
    var r := MonthBatches(cur, e);
    if Ymd(n) <= Ymd(e) {
      var rest := MonthBatches(n, e);
      MonthBatchesOrdered(n, e);
      MonthBatchesShape(n, e);
      assert r == [Batch(cur, BatchEnd(cur, e))] + rest;
      forall i, j | 0 <= i < j < |r| ensures Ymd(r[i].last) < Ymd(r[j].first) {
        assert r[j] == rest[j - 1];
        if i > 0 {
          assert r[i] == rest[i - 1];
        }
      }
    }
  }

  /** Every day from `cur` to `e` lies in some batch. */
  lemma {:induction false} MonthBatchesCover(cur: Date, e: Date, d: Date)
    requires Valid(cur) && Valid(e) && !InLastMonth(e) && Valid(d)
    requires Ymd(cur) <= Ymd(d) <= Ymd(e)
    ensures exists i :: 0 <= i < |MonthBatches(cur, e)| && Within(MonthBatches(cur, e)[i], d)
    decreases Ymd(e) - Ymd(cur)
  {
    BatchHead(cur, e);
    var n := FirstOfNextMonth(cur);
    var r := MonthBatches(cur, e);
    if Ymd(d) <= Ymd(BatchEnd(cur, e)) {
      assert Within(r[0], d);
    } else {
      MonthBatchesCover(n, e, d);
      var rest := MonthBatches(n, e);
      var i :| 0 <= i < |rest| && Within(rest[i], d);
      assert r == [Batch(cur, BatchEnd(cur, e))] + rest;
      assert r[i + 1] == rest[i];
    }
  }

  /** No day lies in two batches: with `MonthBatchesCover` and `MonthBatchesInside`,
      the batches partition the range. */
  lemma MonthBatchesDisjoint(s: Date, e: Date)
    requires Valid(s) && Valid(e) && !InLastMonth(e) && Ymd(s) <= Ymd(e)
    ensures forall d, i, j :: 0 <= i < |MonthBatches(s, e)| && 0 <= j < |MonthBatches(s, e)| && i != j ==>
      !(Within(MonthBatches(s, e)[i], d) && Within(MonthBatches(s, e)[j], d))
  {
    MonthBatchesOrdered(s, e);
    forall d, i, j | 0 <= i < |MonthBatches(s, e)| && 0 <= j < |MonthBatches(s, e)| && i != j
      ensures !(Within(MonthBatches(s, e)[i], d) && Within(MonthBatches(s, e)[j], d))
    {
      if i < j {
        assert Ymd(MonthBatches(s, e)[i].last) < Ymd(MonthBatches(s, e)[j].first);
      } else {
        assert Ymd(MonthBatches(s, e)[j].last) < Ymd(MonthBatches(s, e)[i].first);
      }
    }
  }

  /** No batch holds a day outside `s..e`. */
  lemma MonthBatchesInside(s: Date, e: Date)
    requires Valid(s) && Valid(e) && !InLastMonth(e) && Ymd(s) <= Ymd(e)
    ensures var r := MonthBatches(s, e);
      forall d, i :: 0 <= i < |r| && Within(r[i], d) ==> Ymd(s) <= Ymd(d) <= Ymd(e)
  {
    var r := MonthBatches(s, e);
    MonthBatchesShape(s, e);
    forall d, i | 0 <= i < |r| && Within(r[i], d) ensures Ymd(s) <= Ymd(d) <= Ymd(e) {
      assert BatchOk(r[i], e) && Ymd(s) <= Ymd(r[i].first);
    }
  }

  /** Months counted from the start of the calendar. */
  function MonthIndex(d: Date): int {
    d.year * 12 + d.month
  }

  /** There is one batch per calendar month the range touches. */
  lemma {:induction false} MonthBatchesCount(cur: Date, e: Date)
    requires Valid(cur) && Valid(e) && !InLastMonth(e) && Ymd(cur) <= Ymd(e)
    ensures |MonthBatches(cur, e)| == MonthIndex(e) - MonthIndex(cur) + 1
    decreases Ymd(e) - Ymd(cur)
  {
    FirstOfNextMonthFacts(cur);
    var n := FirstOfNextMonth(cur);
    assert MonthIndex(n) == MonthIndex(cur) + 1;
    if Ymd(n) <= Ymd(e) {
      MonthBatchesCount(n, e);
    } else {
      assert e.year == cur.year && e.month == cur.month;
    }
  }

  /** A range from 15 January to 10 March 2024 is fetched in three batches, the
      second holding the whole of the leap-year February. */
  lemma MonthBatchesExample()
    ensures MonthBatches(Date(2024, 1, 15), Date(2024, 3, 10)) ==
      [Batch(Date(2024, 1, 15), Date(2024, 1, 31)),
       Batch(Date(2024, 2, 1), Date(2024, 2, 29)),
       Batch(Date(2024, 3, 1), Date(2024, 3, 10))]
  {
    var e := Date(2024, 3, 10);
    assert MonthBatches(Date(2024, 3, 1), e) == [Batch(Date(2024, 3, 1), e)] + MonthBatches(Date(2024, 4, 1), e);
    assert MonthBatches(Date(2024, 2, 1), e) == [Batch(Date(2024, 2, 1), Date(2024, 2, 29))] + MonthBatches(Date(2024, 3, 1), e);
  }

  // ---------------------------------------------------------------- minute downloads

  /** The minute-bar request for one batch, bounded by the session times 09:00:00 on
      its first day and 19:00:00 on its last. */
  function BatchCall(code: string, freq: string, b: Batch): Call {
    Call("stk_mins", code, freq, FormatIso(b.first) + " 09:00:00", FormatIso(b.last) + " 19:00:00")
  }

  function BatchCalls(code: string, freq: string, bs: seq<Batch>): (r: seq<Call>)
    ensures |r| == |bs| && forall i :: 0 <= i < |bs| ==> r[i] == BatchCall(code, freq, bs[i])
  {
    if bs == [] then [] else [BatchCall(code, freq, bs[0])] + BatchCalls(code, freq, bs[1..])
  }

  /** The non-empty tables the batches return, in batch order. A batch whose
      request raises, or returns `None`, is skipped. */
  function Collected(remote: Remote, retry: int, code: string, freq: string, bs: seq<Batch>): seq<Table> {
    if bs == [] then []
    else Kept(RetryOutcome(remote, BatchCall(code, freq, bs[0]), retry)) + Collected(remote, retry, code, freq, bs[1..])
  }

  /** What one batch adds to the collected tables: its table when it returned rows. */
  function Kept(res: CallResult): seq<Table> {
    if res.Returned? && res.table.rows != [] then [res.table] else []
  }

  /** A table is collected exactly when some batch's request returned it non-empty. */
  lemma {:induction false} CollectedSpec(remote: Remote, retry: int, code: string, freq: string, bs: seq<Batch>)
    ensures forall t :: t in Collected(remote, retry, code, freq, bs) <==>
      t.rows != [] && exists i :: 0 <= i < |bs| && RetryOutcome(remote, BatchCall(code, freq, bs[i]), retry) == Returned(t)
  {
    if bs != [] {
      CollectedSpec(remote, retry, code, freq, bs[1..]);
      forall t ensures (exists i :: 0 <= i < |bs| && RetryOutcome(remote, BatchCall(code, freq, bs[i]), retry) == Returned(t)) <==>
        RetryOutcome(remote, BatchCall(code, freq, bs[0]), retry) == Returned(t) ||
        exists i :: 0 <= i < |bs[1..]| && RetryOutcome(remote, BatchCall(code, freq, bs[1..][i]), retry) == Returned(t)
      {
        ReturnedSplit(remote, retry, code, freq, bs, t);
      }
    }
  }

  /** Some batch of a non-empty list returned `t` when the first one did or one of
      the others did. */
  lemma ReturnedSplit(remote: Remote, retry: int, code: string, freq: string, bs: seq<Batch>, t: Table)
    requires bs != []
    ensures (exists i :: 0 <= i < |bs| && RetryOutcome(remote, BatchCall(code, freq, bs[i]), retry) == Returned(t)) <==>
      RetryOutcome(remote, BatchCall(code, freq, bs[0]), retry) == Returned(t) ||
      exists i :: 0 <= i < |bs[1..]| && RetryOutcome(remote, BatchCall(code, freq, bs[1..][i]), retry) == Returned(t)
  {
    if exists i :: 0 <= i < |bs| && RetryOutcome(remote, BatchCall(code, freq, bs[i]), retry) == Returned(t) {
      var i :| 0 <= i < |bs| && RetryOutcome(remote, BatchCall(code, freq, bs[i]), retry) == Returned(t);
      if i > 0 {
        assert bs[1..][i - 1] == bs[i];
      }
    }
    if exists i :: 0 <= i < |bs[1..]| && RetryOutcome(remote, BatchCall(code, freq, bs[1..][i]), retry) == Returned(t) {
      var i :| 0 <= i < |bs[1..]| && RetryOutcome(remote, BatchCall(code, freq, bs[1..][i]), retry) == Returned(t);
      assert bs[i + 1] == bs[1..][i];
    }
  }

  /** `pd.concat(all_data)`: the rows of every table, in order. */
  function AllRows(ts: seq<Table>): seq<Row> {
    if ts == [] then [] else ts[0].rows + AllRows(ts[1..])
  }

  predicate HasTimeColumn(ts: seq<Table>) {
    exists t :: t in ts && t.column == TradeTime
  }

  /** The combination step: concatenate; where there is a `trade_time` column, keep
      the last row per (code, time) and sort code ascending, time descending. */
  function Combine(ts: seq<Table>): Table {
    if ts == [] then EmptyTable
    else if HasTimeColumn(ts) then Table(TradeTime, SortRows(DedupKeepLast(AllRows(ts))))
    else Table(ts[0].column, AllRows(ts))
  }

  /** The listing date of the asset, when the catalog has a well-formed one. */
  function ListingDate(refs: References, code: string, assetType: string): Option<string> {
    AssetListDate(refs, code, assetType)
  }

  /** The dates the download covers: the requested range with its start raised to
      the listing date. `None` is every case in which the method gives up with an
      empty frame before any request: a date that does not parse, a start after the
      end, a listing date that does not parse, or one after the end. */
  function MinuteRange(refs: References, code: string, assetType: string, startDate: string,
                       endDate: string): (r: Option<(Date, Date)>)
    ensures r.Some? ==> Valid(r.value.0) && Valid(r.value.1) && Ymd(r.value.0) <= Ymd(r.value.1)
    ensures r.Some? <==>
      ParseYmd(startDate).Some? && ParseYmd(endDate).Some? &&
      Ymd(ParseYmd(startDate).value) <= Ymd(ParseYmd(endDate).value) &&
      (ListingDate(refs, code, assetType).Some? ==>
        ParseYmd(ListingDate(refs, code, assetType).value).Some? &&
        Ymd(ParseYmd(ListingDate(refs, code, assetType).value).value) <= Ymd(ParseYmd(endDate).value))
    ensures r.Some? ==>
      r.value.1 == ParseYmd(endDate).value &&
      Ymd(ParseYmd(startDate).value) <= Ymd(r.value.0) &&
      (r.value.0 == ParseYmd(startDate).value ||
       (ListingDate(refs, code, assetType).Some? && Some(r.value.0) == ParseYmd(ListingDate(refs, code, assetType).value)))
    ensures r.Some? && ListingDate(refs, code, assetType).Some? ==>
      Ymd(ParseYmd(ListingDate(refs, code, assetType).value).value) <= Ymd(r.value.0)
  {
    var sd := ParseYmd(startDate);
    var ed := ParseYmd(endDate);
    if sd.None? || ed.None? then None
    else
      var s := sd.value;
      var e := ed.value;
      if Ymd(s) > Ymd(e) then None
      else
        match ListingDate(refs, code, assetType)
        case None => Some((s, e))
        case Some(l) =>
          match ParseYmd(l)
          case None => None
          case Some(ld) =>
            if Ymd(s) < Ymd(ld) then (if Ymd(ld) > Ymd(e) then None else Some((ld, e)))
            else Some((s, e))
  }

  /** `download_minutes_batch`. December 9999 in the range makes the month step
      raise, which the method turns into an empty frame. */
  function MinutesSpec(remote: Remote, retry: int, refs: References, code: string, freq: string,
                       startDate: string, endDate: string, assetType: string): Table {
    match MinuteRange(refs, code, assetType, startDate, endDate)
    case None => EmptyTable
    case Some((s, e)) =>
      if InLastMonth(e) then EmptyTable
      else Combine(Collected(remote, retry, code, freq, MonthBatches(s, e)))
  }

  /** One turn of the batch loop: the batches from `cur` are the batch at `cur`
      followed by those from the first of the next month. */
  lemma MonthBatchesStep(remote: Remote, retry: int, code: string, freq: string, cur: Date, e: Date)
    requires Valid(cur) && Valid(e) && !InLastMonth(e) && Ymd(cur) <= Ymd(e)
    ensures !InLastMonth(cur) && Valid(FirstOfNextMonth(cur))
    ensures var b := Batch(cur, BatchEnd(cur, e));
      var rest := MonthBatches(FirstOfNextMonth(cur), e);
      var res := RetryOutcome(remote, BatchCall(code, freq, b), retry);
      MonthBatches(cur, e) == [b] + rest &&
      Collected(remote, retry, code, freq, MonthBatches(cur, e)) ==
        Kept(res) + Collected(remote, retry, code, freq, rest) &&
      BatchCalls(code, freq, MonthBatches(cur, e)) == [BatchCall(code, freq, b)] + BatchCalls(code, freq, rest)
  {
    BatchHead(cur, e);
    var b := Batch(cur, BatchEnd(cur, e));
    var rest := MonthBatches(FirstOfNextMonth(cur), e);
    assert MonthBatches(cur, e) == [b] + rest;
    assert ([b] + rest)[1..] == rest;
  }

  /** When the range ends in December 9999 the loop reaches that month: every month
      step before it stays within the range. */
  lemma LastMonthReached(cur: Date, e: Date)
    requires Valid(cur) && Valid(e) && Ymd(cur) <= Ymd(e)
    ensures InLastMonth(cur) ==> InLastMonth(e)
    ensures InLastMonth(e) && !InLastMonth(cur) ==>
      Valid(FirstOfNextMonth(cur)) && Ymd(FirstOfNextMonth(cur)) <= Ymd(e)
  {
    if !InLastMonth(cur) {
      FirstOfNextMonthFacts(cur);
    }
  }

  lemma AppendAssociates<T>(a: seq<T>, b: seq<T>, c: seq<T>)
    ensures (a + b) + c == a + (b + c)
  {
  }

  /** The batch loop of `download_minutes_batch` over `s..e`: the non-empty tables
      collected and the batch requests made, in order. `overflow` is the exception
      the month step raises in December 9999. */
  method CollectBatches(remote: Remote, retry: int, code: string, freq: string, s: Date, e: Date)
    returns (tables: seq<Table>, calls: seq<Call>, overflow: bool)
    requires Valid(s) && Valid(e) && Ymd(s) <= Ymd(e)
    ensures overflow <==> InLastMonth(e)
    ensures !overflow ==>
      tables == Collected(remote, retry, code, freq, MonthBatches(s, e)) &&
      calls == BatchCalls(code, freq, MonthBatches(s, e))
  {
    calls := [];
    tables := [];
    var cur := s;
    while Ymd(cur) <= Ymd(e)
      invariant Valid(cur)
      invariant InLastMonth(e) ==> Ymd(cur) <= Ymd(e)
      invariant !InLastMonth(e) ==>
        tables + Collected(remote, retry, code, freq, MonthBatches(cur, e)) ==
        Collected(remote, retry, code, freq, MonthBatches(s, e))
      invariant !InLastMonth(e) ==>
        calls + BatchCalls(code, freq, MonthBatches(cur, e)) == BatchCalls(code, freq, MonthBatches(s, e))
      decreases Ymd(e) - Ymd(cur)
    {
      LastMonthReached(cur, e);
      if InLastMonth(cur) {
        return tables, calls, true;
      }
      FirstOfNextMonthFacts(cur);
      var next := FirstOfNextMonth(cur);
      var call := BatchCall(code, freq, Batch(cur, BatchEnd(cur, e)));
      ghost var calls0, tables0 := calls, tables;
      calls := calls + [call];
      var res, _ := RetryCall(remote, call, retry);
      if res.Returned? && res.table.rows != [] {
        tables := tables + [res.table];
      }
      if !InLastMonth(e) {
        CollectStep(remote, retry, code, freq, s, cur, e, tables0, calls0);
        assert tables == tables0 + Kept(res);
      }
      cur := next;
    }
    overflow := false;
  }

  /** The loop invariant of `CollectBatches` carried from `cur` to the first of the
      next month. */
  lemma CollectStep(remote: Remote, retry: int, code: string, freq: string, s: Date, cur: Date, e: Date,
                    tables0: seq<Table>, calls0: seq<Call>)
    requires Valid(s) && Valid(cur) && Valid(e) && !InLastMonth(e) && Ymd(cur) <= Ymd(e)
    requires tables0 + Collected(remote, retry, code, freq, MonthBatches(cur, e)) ==
      Collected(remote, retry, code, freq, MonthBatches(s, e))
    requires calls0 + BatchCalls(code, freq, MonthBatches(cur, e)) == BatchCalls(code, freq, MonthBatches(s, e))
    ensures !InLastMonth(cur) && Valid(FirstOfNextMonth(cur))
    ensures var call := BatchCall(code, freq, Batch(cur, BatchEnd(cur, e)));
      var rest := MonthBatches(FirstOfNextMonth(cur), e);
      (tables0 + Kept(RetryOutcome(remote, call, retry))) + Collected(remote, retry, code, freq, rest) == Collected(remote, retry, code, freq, MonthBatches(s, e)) &&
      (calls0 + [call]) + BatchCalls(code, freq, rest) == BatchCalls(code, freq, MonthBatches(s, e))
  {
    MonthBatchesStep(remote, retry, code, freq, cur, e);
    var call := BatchCall(code, freq, Batch(cur, BatchEnd(cur, e)));
    var rest := MonthBatches(FirstOfNextMonth(cur), e);
    AppendAssociates(tables0, Kept(RetryOutcome(remote, call, retry)), Collected(remote, retry, code, freq, rest));
    AppendAssociates(calls0, [call], BatchCalls(code, freq, rest));
  }

  /** `download_minutes_batch`; `calls` lists the batch requests made, in order. */
  method DownloadMinutesBatch(remote: Remote, retry: int, refs: References, code: string, freq: string,
                              startDate: string, endDate: string, assetType: string)
    returns (data: Table, calls: seq<Call>)
    ensures data == MinutesSpec(remote, retry, refs, code, freq, startDate, endDate, assetType)
    ensures MinuteRange(refs, code, assetType, startDate, endDate).None? ==> calls == []
    ensures var range := MinuteRange(refs, code, assetType, startDate, endDate);
      range.Some? && !InLastMonth(range.value.1) ==>
        calls == BatchCalls(code, freq, MonthBatches(range.value.0, range.value.1))
  {
    var range := MinuteRange(refs, code, assetType, startDate, endDate);
    if range.None? {
      return EmptyTable, [];
    }
    var tables, overflow;
    tables, calls, overflow := CollectBatches(remote, retry, code, freq, range.value.0, range.value.1);
    if overflow {
      return EmptyTable, calls;
    }
    data := Combine(tables);
  }

  /** A minute result that has a time column holds each (code, time) once, the last
      row fetched for it, sorted code ascending and time descending; its keys are
      exactly those of the rows the batches returned. */
  lemma MinutesResultSpec(remote: Remote, retry: int, refs: References, code: string, freq: string,
                          startDate: string, endDate: string, assetType: string)
    ensures var data := MinutesSpec(remote, retry, refs, code, freq, startDate, endDate, assetType);
      var range := MinuteRange(refs, code, assetType, startDate, endDate);
      data.column == TradeTime ==>
        range.Some? && !InLastMonth(range.value.1) &&
        var fetched := AllRows(Collected(remote, retry, code, freq, MonthBatches(range.value.0, range.value.1)));
        Sorted(data.rows) && UniqueKeys(data.rows) && Keys(data.rows) == Keys(fetched) &&
        forall x :: x in data.rows ==> x == LastRowOf(fetched, KeyOf(x))
  {
    var data := MinutesSpec(remote, retry, refs, code, freq, startDate, endDate, assetType);
    var range := MinuteRange(refs, code, assetType, startDate, endDate);
    if data.column == TradeTime {
      assert range.Some? && !InLastMonth(range.value.1);
      var ts := Collected(remote, retry, code, freq, MonthBatches(range.value.0, range.value.1));
      assert data == Combine(ts);
      assert ts != [] ==> ts[0] in ts;
      assert HasTimeColumn(ts);
      var fetched := AllRows(ts);
      assert data.rows == SortRows(DedupKeepLast(fetched));
      MergeRowsSpec([], fetched);
      assert [] + fetched == fetched;
      assert Keys([]) == {};
    }
  }

  /** When no batch request returns rows, nothing is collected. */
  lemma {:induction false} NothingCollected(remote: Remote, retry: int, code: string, freq: string, bs: seq<Batch>)
    requires forall i :: 0 <= i < |bs| ==>
      !(RetryOutcome(remote, BatchCall(code, freq, bs[i]), retry).Returned? &&
        RetryOutcome(remote, BatchCall(code, freq, bs[i]), retry).table.rows != [])
    ensures Collected(remote, retry, code, freq, bs) == []
  {
    if bs != [] {
      assert forall i :: 1 <= i < |bs| ==> bs[1..][i - 1] == bs[i];
      NothingCollected(remote, retry, code, freq, bs[1..]);
    }
  }

  /** When no batch request of the range returns rows, the result is empty. */
  lemma MinutesNothingReturned(remote: Remote, retry: int, refs: References, code: string, freq: string,
                               s: Date, e: Date, startDate: string, endDate: string, assetType: string)
    requires MinuteRange(refs, code, assetType, startDate, endDate) == Some((s, e)) && !InLastMonth(e)
    requires forall i :: 0 <= i < |MonthBatches(s, e)| ==>
      !(RetryOutcome(remote, BatchCall(code, freq, MonthBatches(s, e)[i]), retry).Returned? &&
        RetryOutcome(remote, BatchCall(code, freq, MonthBatches(s, e)[i]), retry).table.rows != [])
    ensures MinutesSpec(remote, retry, refs, code, freq, startDate, endDate, assetType) == EmptyTable
  {
    NothingCollected(remote, retry, code, freq, MonthBatches(s, e));
  }

  // ---------------------------------------------------------------- daily and minute fetches

  /** The three asset classes. */
  datatype Kind = Stock | Fund | Index

  /** The `asset_type` each class passes to the listing-date lookup. */
  function AssetTypeName(k: Kind): string {
    match k
    case Stock => "stocks"
    case Fund => "funds"
    case Index => "indices"
  }

  function DailyApi(k: Kind): string {
    match k
    case Stock => "daily"
    case Fund => "fund_daily"
    case Index => "index_daily"
  }

  /** The adjustment-factor endpoint; indices have none. */
  function AdjustmentApi(k: Kind): Option<string> {
    match k
    case Stock => Some("adj_factor")
    case Fund => Some("fund_adj")
    case Index => None
  }

  /** `download_stock_daily`, `download_fund_daily` and `download_index_daily`. The
      daily rows come back unchanged when the adjustment request succeeds (the
      adjusted prices it adds are not modelled); an exception anywhere, or a `None`
      where a frame is expected, gives an empty frame. */
  function DailySpec(remote: Remote, retry: int, k: Kind, code: string, start: string, end: string): Table {
    var daily := RetryOutcome(remote, Call(DailyApi(k), code, "", start, end), retry);
    if !daily.Returned? || daily.table.rows == [] then EmptyTable
    else if AdjustmentApi(k).None? then daily.table
    else
      match RetryOutcome(remote, Call(AdjustmentApi(k).value, code, "", start, end), retry)
      case Returned(_) => daily.table
      case _ => EmptyTable
  }

  method DownloadDaily(remote: Remote, retry: int, k: Kind, code: string, start: string, end: string)
    returns (data: Table)
    ensures data == DailySpec(remote, retry, k, code, start, end)
  {
    var daily, _ := RetryCall(remote, Call(DailyApi(k), code, "", start, end), retry);
    if !daily.Returned? || daily.table.rows == [] {
      return EmptyTable;
    }
    if AdjustmentApi(k).None? {
      return daily.table;
    }
    var adj, _ := RetryCall(remote, Call(AdjustmentApi(k).value, code, "", start, end), retry);
    if adj.Returned? {
      data := daily.table;
    } else {
      data := EmptyTable;
    }
  }

  /** Daily data is either nothing or exactly what the daily endpoint returned for
      the requested, unclamped range; for stocks and funds a failed adjustment
      request discards daily rows that did arrive. */
  lemma DailySpecFacts(remote: Remote, retry: int, k: Kind, code: string, start: string, end: string)
    ensures var data := DailySpec(remote, retry, k, code, start, end);
      data.rows != [] ==> RetryOutcome(remote, Call(DailyApi(k), code, "", start, end), retry) == Returned(data)
    ensures var data := DailySpec(remote, retry, k, code, start, end);
      k != Index && !RetryOutcome(remote, Call(AdjustmentApi(k).value, code, "", start, end), retry).Returned? ==>
        data.rows == []
    ensures var daily := RetryOutcome(remote, Call(DailyApi(k), code, "", start, end), retry);
      k == Index && daily.Returned? && daily.table.rows != [] ==> DailySpec(remote, retry, k, code, start, end) == daily.table
  {
  }

  /** The five minute frequencies and the service's names for them. */
  const MinuteFrequencies: map<string, string> := map[
    "minute_1" := "1min", "minute_5" := "5min", "minute_15" := "15min",
    "minute_30" := "30min", "minute_60" := "60min"]

  /** `freq_map.get(freq, '1min')`. */
  function ServiceFrequency(freq: string): string {
    if freq in MinuteFrequencies then MinuteFrequencies[freq] else "1min"
  }

  /** Every frequency maps to one of the service's five; each configured name maps
      to its own, and anything else to one-minute bars. */
  lemma ServiceFrequencyFacts(freq: string)
    ensures ServiceFrequency(freq) in {"1min", "5min", "15min", "30min", "60min"}
    ensures freq == "minute_5" ==> ServiceFrequency(freq) == "5min"
    ensures freq == "minute_15" ==> ServiceFrequency(freq) == "15min"
    ensures freq == "minute_30" ==> ServiceFrequency(freq) == "30min"
    ensures freq == "minute_60" ==> ServiceFrequency(freq) == "60min"
    ensures !(freq in {"minute_5", "minute_15", "minute_30", "minute_60"}) ==> ServiceFrequency(freq) == "1min"
  {
  }

  /** What one frequency of one asset fetches: daily bars from the class's daily
      endpoint, any other frequency as minute bars in month batches. */
  function FetchSpec(remote: Remote, retry: int, refs: References, k: Kind, code: string, freq: string,
                     start: string, end: string): Table {
    if freq == "daily" then DailySpec(remote, retry, k, code, start, end)
    else MinutesSpec(remote, retry, refs, code, ServiceFrequency(freq), start, end, AssetTypeName(k))
  }

  method Fetch(remote: Remote, retry: int, refs: References, k: Kind, code: string, freq: string,
               start: string, end: string) returns (data: Table)
    ensures data == FetchSpec(remote, retry, refs, k, code, freq, start, end)
  {
    if freq == "daily" {
      data := DownloadDaily(remote, retry, k, code, start, end);
    } else {
      var calls;
      data, calls := DownloadMinutesBatch(remote, retry, refs, code, ServiceFrequency(freq), start, end, AssetTypeName(k));
    }
  }
}
