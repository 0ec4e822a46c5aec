/** `calculate_download_range`: the (start, end) pair of 'YYYYMMDD' strings one code
    and frequency is fetched over, and the skip rule its callers apply. */
module Planner {
  import opened Wrappers
  import opened Text
  import opened Calendar
  import opened Settings
  import opened Ledger

  /** The global end date: `default_end_date`, with a missing or 'auto' value meaning
      today. */
  function GlobalEnd(dr: DateRanges, today: Date): string {
    AutoToday(dr.defaultEnd.GetOr("auto"), today)
  }

  /** `calculate_download_range(code, assetType, freq)` given the ledger rows read for
      (assetType, freq). `Err` stands for the exception the source raises when the
      ledger date cannot be parsed or a date computation leaves the calendar. */
  function DownloadRange(dr: DateRanges, ledger: seq<SyncRow>, code: string, assetType: string,
                         today: Date): Result<(string, string)>
    requires Valid(today)
  {
    var mode := ModeOf(dr);
    if mode == "full" then
      Ok((AutoToday(dr.defaultStart.GetOr("20100101"), today), GlobalEnd(dr, today)))
    else if mode == "custom" then
      var c := ConfigForAsset(dr, assetType, today);
      Ok((c.startDate.GetOr("20100101"), c.endDate.GetOr(TodayText(today))))
    else
      match LastDateOf(ledger, code)
      case Some(last) =>
        (match ParseYmd(last)
         case None => Err("unparseable last_date")
         case Some(d) =>
           if d == LastDate then Err("date out of range")
           else Ok((FormatYmd(Next(d)), GlobalEnd(dr, today))))
      case None =>
        var defaultStart := dr.defaultStart.GetOr("20100101");
        if defaultStart == "auto" then
          match ShiftDays(today, -dr.lookbackDays.GetOr(1800))
          case None => Err("date out of range")
          case Some(s) => Ok((FormatYmd(s), GlobalEnd(dr, today)))
        else Ok((defaultStart, GlobalEnd(dr, today)))
  }

  /** `start_date >= end_date` compared as strings: the frequency is skipped. */
  predicate Skip(start: string, end: string) {
    StrLe(end, start)
  }

  /** Full mode reads neither the ledger nor the asset blocks: every code of every
      asset class gets the global range, 'auto' meaning today. */
  lemma FullModeIgnoresLedger(dr: DateRanges, l1: seq<SyncRow>, l2: seq<SyncRow>, c1: string, c2: string,
                              a1: string, a2: string, today: Date)
    requires Valid(today) && ModeOf(dr) == "full"
    ensures DownloadRange(dr, l1, c1, a1, today) == DownloadRange(dr, l2, c2, a2, today)
    ensures DownloadRange(dr, l1, c1, a1, today) ==
      Ok((AutoToday(dr.defaultStart.GetOr("20100101"), today), AutoToday(dr.defaultEnd.GetOr("auto"), today)))
  {
  }

  /** Custom mode ignores the ledger and takes the dates of the asset's settings. */
  lemma CustomModeUsesAssetDates(dr: DateRanges, l1: seq<SyncRow>, l2: seq<SyncRow>, code: string,
                                 assetType: string, today: Date)
    requires Valid(today) && ModeOf(dr) == "custom"
    ensures DownloadRange(dr, l1, code, assetType, today) == DownloadRange(dr, l2, code, assetType, today)
    ensures var c := ConfigForAsset(dr, assetType, today);
      c.startDate.Some? && c.endDate.Some? &&
      DownloadRange(dr, l1, code, assetType, today) == Ok((c.startDate.value, c.endDate.value))
  {
  }

  /** Incremental mode resumes the day after the ledger's date for the code: the new
      start is a later string, and no valid date lies strictly between the two, so
      nothing is fetched twice and no day is jumped over. */
  lemma IncrementalResumesNextDay(dr: DateRanges, ledger: seq<SyncRow>, code: string, assetType: string,
                                  today: Date, last: string)
    requires Valid(today) && ModeOf(dr) != "full" && ModeOf(dr) != "custom"
    requires LastDateOf(ledger, code) == Some(last)
    requires ParseYmd(last).Some? && ParseYmd(last).value != LastDate
    ensures var r := DownloadRange(dr, ledger, code, assetType, today);
      r.Ok? && r.value.0 == FormatYmd(Next(ParseYmd(last).value)) && r.value.1 == GlobalEnd(dr, today) &&
      StrLt(last, r.value.0) &&
      (forall x :: Valid(x) && StrLt(last, FormatYmd(x)) ==> StrLe(r.value.0, FormatYmd(x)))
  {
    var d := ParseYmd(last).value;
    FormatParse(last);
    NextIsSuccessor(d, d);
    FormatOrder(d, Next(d));
    forall x | Valid(x) && StrLt(last, FormatYmd(x)) ensures StrLe(FormatYmd(Next(d)), FormatYmd(x)) {
      FormatOrder(d, x);
      NextIsSuccessor(d, x);
      FormatOrder(Next(d), x);
    }
  }

  /** An incremental ledger date that is not an eight-digit date makes the planner
      raise, so that frequency is not downloaded. */
  lemma IncrementalUnparseableDate(dr: DateRanges, ledger: seq<SyncRow>, code: string, assetType: string,
                                   today: Date, last: string)
    requires Valid(today) && ModeOf(dr) != "full" && ModeOf(dr) != "custom"
    requires LastDateOf(ledger, code) == Some(last) && ParseYmd(last).None?
    ensures DownloadRange(dr, ledger, code, assetType, today).Err?
  {
  }

  /** A code with no ledger row starts at `default_start_date`, or `lookback_days`
      (1800 by default) before today when that is 'auto'; such a start is never after
      today, and moving forward the lookback from it returns to today. */
  lemma IncrementalFirstDownload(dr: DateRanges, ledger: seq<SyncRow>, code: string, assetType: string,
                                 today: Date)
    requires Valid(today) && ModeOf(dr) != "full" && ModeOf(dr) != "custom"
    requires LastDateOf(ledger, code).None?
    ensures var r := DownloadRange(dr, ledger, code, assetType, today);
      (dr.defaultStart.GetOr("20100101") != "auto" ==>
        r == Ok((dr.defaultStart.GetOr("20100101"), GlobalEnd(dr, today)))) &&
      (dr.defaultStart == Some("auto") && dr.lookbackDays.GetOr(1800) >= 0 && r.Ok? ==>
        exists s :: Valid(s) && r.value.0 == FormatYmd(s) && Ymd(s) <= Ymd(today) &&
          ShiftDays(s, dr.lookbackDays.GetOr(1800)) == Some(today)) &&
      (r.Ok? ==> r.value.1 == GlobalEnd(dr, today))
  {
    if dr.defaultStart == Some("auto") && dr.lookbackDays.GetOr(1800) >= 0 {
      var n: nat := dr.lookbackDays.GetOr(1800);
      if ShiftDays(today, -(n as int)).Some? {
        ShiftBackAndForth(today, n);
      }
    }
  }

  /** A code whose ledger date already equals the end date is skipped. */
  lemma UpToDateIsSkipped(dr: DateRanges, ledger: seq<SyncRow>, code: string, assetType: string,
                          today: Date, last: string)
    requires Valid(today) && ModeOf(dr) != "full" && ModeOf(dr) != "custom"
    requires LastDateOf(ledger, code) == Some(last) && last == GlobalEnd(dr, today)
    requires ParseYmd(last).Some? && ParseYmd(last).value != LastDate
    ensures var r := DownloadRange(dr, ledger, code, assetType, today);
      r.Ok? && Skip(r.value.0, r.value.1)
  {
    IncrementalResumesNextDay(dr, ledger, code, assetType, today, last);
    var r := DownloadRange(dr, ledger, code, assetType, today);
    StrLeTotal(r.value.0, last);
  }

  /** A code one day behind the end date gets start == end, which the `>=` test
      skips: the end day itself is never fetched. */
  lemma OneDayBehindIsSkipped(dr: DateRanges, ledger: seq<SyncRow>, code: string, assetType: string,
                              today: Date, e: Date)
    requires Valid(today) && ModeOf(dr) != "full" && ModeOf(dr) != "custom"
    requires Valid(e) && e != FirstDate && GlobalEnd(dr, today) == FormatYmd(e)
    requires LastDateOf(ledger, code) == Some(FormatYmd(Prev(e)))
    ensures var r := DownloadRange(dr, ledger, code, assetType, today);
      r == Ok((FormatYmd(e), FormatYmd(e))) && Skip(r.value.0, r.value.1)
  {
    NextPrev(e);
    ParseFormat(Prev(e));
    StrLeRefl(FormatYmd(e));
  }

  /** A custom block with no start date under `default_start_date: 'auto'` plans the
      start 'auto', which sorts after every 'YYYYMMDD' end date: the asset is always
      skipped. */
  lemma CustomAutoStartIsSkipped(dr: DateRanges, ledger: seq<SyncRow>, code: string, assetType: string,
                                 today: Date, e: Date)
    requires Valid(today) && ModeOf(dr) == "custom" && ConfigName(assetType) in dr.customRanges
    requires dr.customRanges[ConfigName(assetType)].startDate.None? && dr.defaultStart == Some("auto")
    requires ConfigForAsset(dr, assetType, today).endDate == Some(FormatYmd(e))
    ensures var r := DownloadRange(dr, ledger, code, assetType, today);
      r == Ok(("auto", FormatYmd(e))) && Skip(r.value.0, r.value.1)
  {
    var s := FormatYmd(e);
    assert IsDigit(s[0]);
    assert s[0] < 'a';
  }

  /** A ledger holding '20240628' with a global end of '20240701' plans 20240629 to
      20240701. */
  lemma ResumeExample(today: Date)
    requires Valid(today)
    ensures DownloadRange(NoRanges.(defaultEnd := Some("20240701")), [SyncRow("600000.SH", "20240628")],
                          "600000.SH", "equities", today) == Ok(("20240629", "20240701"))
  {
    var last := "20240628";
    JuneDates();
    ParseFormat(Date(2024, 6, 28));
    assert Next(Date(2024, 6, 28)) == Date(2024, 6, 29);
  }

  lemma JuneDates()
    ensures FormatYmd(Date(2024, 6, 28)) == "20240628"
    ensures FormatYmd(Date(2024, 6, 29)) == "20240629"
  {
    assert DigitsOf(2, 1) == "2";
    assert DigitsOf(20, 2) == "20";
    assert DigitsOf(202, 3) == "202";
    assert DigitsOf(2024, 4) == "2024";
    assert DigitsOf(20240, 5) == "20240";
    assert DigitsOf(202406, 6) == "202406";
    assert DigitsOf(2024062, 7) == "2024062";
    assert DigitsOf(20240628, 8) == "20240628";
    assert DigitsOf(20240629, 8) == "20240629";
  }
}
