/** The synchronisation engine itself: for each code and frequency, plan the date
    range, fetch, save, and record the new watermark in the ledger; and the loops
    over frequencies and over the codes of an asset class. The stored state -- data
    files and sync ledgers -- lives in an `Archive`. */
module Sync {
  import opened Wrappers
  import opened Text
  import opened Calendar
  import opened Tables
  import opened Settings
  import opened Ledger
  import opened Planner
  import opened Catalog
  import opened Retrieval
  import opened Persist

  /** What a download reads but never writes: the configuration, today's date, the
      remote service and the reference catalogs. */
  datatype Env = Env(cfg: Config, today: Date, remote: Remote, refs: References)

  /** Sync ledgers by (asset directory name, frequency). */
  type Ledgers = map<(string, string), LedgerFile>

  /** The stored state: data files and sync ledgers, kept apart. */
  datatype Disk = Disk(files: Store, ledgers: Ledgers)

  /** The directory and ledger name of an asset class. */
  function LedgerName(k: Kind): string {
    match k
    case Stock => "equities"
    case Fund => "funds"
    case Index => "indices"
  }

  function TempDefault(k: Kind): string {
    match k
    case Stock => "./temp_stocks"
    case Fund => "./temp_funds"
    case Index => "./temp_indices"
  }

  function DataRoot(cfg: Config): string {
    cfg.dataRoot.GetOr("./data")
  }

  /** The settings of the asset class under the configured update mode. */
  function Block(env: Env, k: Kind): AssetBlock {
    ConfigForAsset(RangesOf(env.cfg), AssetTypeName(k), env.today)
  }

  /** The folder a frequency's files go to: `<directories>/<freq>` when saving to the
      temporary area, else `<data_root>/data/<asset>/<freq>`. */
  function Folder(env: Env, k: Kind, freq: string, toTemp: bool): string {
    if toTemp then Join(Block(env, k).directories.GetOr(TempDefault(k)), freq)
    else Join(Join(Join(DataRoot(env.cfg), "data"), LedgerName(k)), freq)
  }

  function LedgerKey(k: Kind, freq: string): (string, string) {
    (LedgerName(k), freq)
  }

  /** `get_last_sync_info`: the rows of a ledger file, none when it is missing or
      unreadable. */
  function LedgerRowsOf(ledgers: Ledgers, key: (string, string)): seq<SyncRow> {
    ReadLedger(if key in ledgers then Some(ledgers[key]) else None)
  }

  /** How one (code, frequency) step ends. */
  datatype Step =
    | Failed                                      // the planner raised
    | UpToDate(start: string, end: string)        // start >= end: nothing fetched
    | NoData(start: string, end: string)          // fetched, but no rows came back
    | Saved(start: string, end: string, data: Table)

  function PlanStep(env: Env, d: Disk, k: Kind, code: string, freq: string): Step
    requires Valid(env.today)
  {
    match DownloadRange(RangesOf(env.cfg), LedgerRowsOf(d.ledgers, LedgerKey(k, freq)), code, LedgerName(k), env.today)
    case Err(_) => Failed
    case Ok(range) =>
      if Skip(range.0, range.1) then UpToDate(range.0, range.1)
      else
        var data := FetchSpec(env.remote, RetryCount(env.cfg), env.refs, k, code, freq, range.0, range.1);
        if data.rows == [] then NoData(range.0, range.1) else Saved(range.0, range.1, data)
  }

  /** The state after one frequency of `download_single_*`: only a step that brought
      rows back saves them and upserts the ledger. */
  function StepSpec(env: Env, d: Disk, k: Kind, code: string, freq: string, toTemp: bool): Disk
    requires Valid(env.today)
  {
    ApplyStep(env, d, k, code, freq, toTemp, PlanStep(env, d, k, code, freq))
  }

  /** What a step's outcome does to the stored state: saved rows go to the code's
      file and the ledger records their watermark. */
  function ApplyStep(env: Env, d: Disk, k: Kind, code: string, freq: string, toTemp: bool, st: Step): Disk {
    if st.Saved? && st.data.rows != [] then
      Disk(SaveSpec(d.files, st.data, GetDataFilePath(Folder(env, k, freq, toTemp), code), None, ModeOf(RangesOf(env.cfg))),
           Recorded(d.ledgers, LedgerKey(k, freq), code, Watermark(freq, st.data, st.end)))
    else d
  }

  /** `update_sync_info` after an upsert of (code, date) into the rows read back. */
  function Recorded(ledgers: Ledgers, key: (string, string), code: string, date: string): Ledgers {
    ledgers[key := LedgerRows(Upsert(LedgerRowsOf(ledgers, key), code, date))]
  }

  /** The frequencies of `download_single_*` called with `freqs`: for stocks and funds
      the configured ones (daily by default), for indices daily. */
  function SingleFrequencies(env: Env, k: Kind, freqs: Option<seq<string>>): seq<string> {
    if freqs.Some? then freqs.value
    else if k == Index then DailyOnly
    else Block(env, k).frequencies.GetOr(DailyOnly)
  }

  /** The frequencies run one after the other for one code. */
  function StepsSpec(env: Env, d: Disk, k: Kind, code: string, freqs: seq<string>, toTemp: bool): Disk
    requires Valid(env.today)
    decreases |freqs|
  {
    if freqs == [] then d
    else StepSpec(env, StepsSpec(env, d, k, code, freqs[..|freqs| - 1], toTemp), k, code, freqs[|freqs| - 1], toTemp)
  }

  /** One more frequency is one more step on the state reached so far. */
  lemma StepsSnoc(env: Env, d: Disk, k: Kind, code: string, freqs: seq<string>, i: nat, toTemp: bool)
    requires Valid(env.today) && i < |freqs|
    ensures StepsSpec(env, d, k, code, freqs[..i + 1], toTemp)
         == StepSpec(env, StepsSpec(env, d, k, code, freqs[..i], toTemp), k, code, freqs[i], toTemp)
  {
    assert freqs[..i + 1][..i] == freqs[..i];
  }

  /** The codes downloaded one after the other. */
  function CodesSpec(env: Env, d: Disk, k: Kind, codes: seq<string>, freqs: Option<seq<string>>, toTemp: bool): Disk
    requires Valid(env.today)
    decreases |codes|
  {
    if codes == [] then d
    else
      var before := CodesSpec(env, d, k, codes[..|codes| - 1], freqs, toTemp);
      StepsSpec(env, before, k, codes[|codes| - 1], SingleFrequencies(env, k, freqs), toTemp)
  }

  /** One more code is one more run of its frequencies on the state reached so far. */
  lemma CodesSnoc(env: Env, d: Disk, k: Kind, codes: seq<string>, i: nat, freqs: Option<seq<string>>, toTemp: bool)
    requires Valid(env.today) && i < |codes|
    ensures CodesSpec(env, d, k, codes[..i + 1], freqs, toTemp)
         == StepsSpec(env, CodesSpec(env, d, k, codes[..i], freqs, toTemp), k, codes[i], SingleFrequencies(env, k, freqs), toTemp)
  {
    assert codes[..i + 1][..i] == codes[..i];
  }

  function Codes(rows: seq<Instrument>): (r: seq<string>)
    ensures |r| == |rows| && forall i :: 0 <= i < |rows| ==> r[i] == rows[i].code
  {
    seq(|rows|, i requires 0 <= i < |rows| => rows[i].code)
  }

  /** The codes the stock and index bulk loops download: writing the progress label
      slices the row's name, which raises on an empty cell, and the row is then
      skipped. */
  function NamedCodes(rows: seq<Instrument>): seq<string>
    decreases |rows|
  {
    if rows == [] then []
    else
      var r0 := NamedCodes(rows[..|rows| - 1]);
      if rows[|rows| - 1].name.Some? then r0 + [rows[|rows| - 1].code] else r0
  }

  lemma CodesOfInit(rows: seq<Instrument>)
    requires rows != []
    ensures Codes(rows) == Codes(rows[..|rows| - 1]) + [rows[|rows| - 1].code]
  {
    var a := Codes(rows);
    var b := Codes(rows[..|rows| - 1]) + [rows[|rows| - 1].code];
    assert |a| == |b|;
    forall i | 0 <= i < |a| ensures a[i] == b[i] {
      if i < |rows| - 1 {
        assert rows[..|rows| - 1][i] == rows[i];
      }
    }
  }

  /** The loop downloads, in catalog order, the code of every row with a name and
      nothing else; when every name is present that is every code of the list. */
  lemma {:induction false} NamedCodesSpec(rows: seq<Instrument>)
    ensures var r := NamedCodes(rows);
      |r| <= |rows| &&
      (forall i :: 0 <= i < |rows| && rows[i].name.Some? ==> rows[i].code in r) &&
      (forall c :: c in r ==> exists i :: 0 <= i < |rows| && rows[i].name.Some? && rows[i].code == c) &&
      ((forall i :: 0 <= i < |rows| ==> rows[i].name.Some?) ==> r == Codes(rows))
    decreases |rows|
  {
    if rows != [] {
      var init := rows[..|rows| - 1];
      var last := rows[|rows| - 1];
      var r0 := NamedCodes(init);
      NamedCodesSpec(init);
      assert NamedCodes(rows) == r0 + (if last.name.Some? then [last.code] else []);
      forall i | 0 <= i < |rows| && rows[i].name.Some? ensures rows[i].code in NamedCodes(rows) {
        if i < |init| {
          assert init[i] == rows[i];
        }
      }
      forall c | c in NamedCodes(rows)
        ensures exists i :: 0 <= i < |rows| && rows[i].name.Some? && rows[i].code == c
      {
        if c in r0 {
          var i :| 0 <= i < |init| && init[i].name.Some? && init[i].code == c;
          assert rows[i] == init[i];
        } else {
          assert rows[|rows| - 1].code == c;
        }
      }
      if forall i :: 0 <= i < |rows| ==> rows[i].name.Some? {
        assert forall i :: 0 <= i < |init| ==> init[i].name.Some? by {
          forall i | 0 <= i < |init| ensures init[i].name.Some? {
            assert init[i] == rows[i];
          }
        }
        CodesOfInit(rows);
      }
    }
  }

  lemma NamedCodesSnoc(rows: seq<Instrument>, i: nat)
    requires i < |rows|
    ensures NamedCodes(rows[..i + 1])
         == NamedCodes(rows[..i]) + (if rows[i].name.Some? then [rows[i].code] else [])
  {
    assert rows[..i + 1][..i] == rows[..i];
  }

  /** Downloading one more code runs its frequencies on the state reached so far. */
  lemma CodesAppendOne(env: Env, d: Disk, k: Kind, codes: seq<string>, code: string,
                       freqs: Option<seq<string>>, toTemp: bool)
    requires Valid(env.today)
    ensures CodesSpec(env, d, k, codes + [code], freqs, toTemp)
         == StepsSpec(env, CodesSpec(env, d, k, codes, freqs, toTemp), k, code, SingleFrequencies(env, k, freqs), toTemp)
  {
    assert (codes + [code])[..|codes|] == codes;
  }

  /** `download_all_stocks`: the rows whose codes are downloaded and the frequencies
      handed to `download_single_stock`. */
  function StocksPlan(env: Env, limit: Option<int>, useConfig: bool, freqs: Option<seq<string>>)
    : (seq<Instrument>, Option<seq<string>>)
  {
    var dr := RangesOf(env.cfg);
    if useConfig then
      var list := StockList(env.refs, dr, env.today, true);
      var b := Block(env, Stock);
      if !b.enabled.GetOr(true) || list == [] then ([], freqs)
      else
        var fs := if freqs.Some? then freqs else Some(b.frequencies.GetOr(DailyOnly));
        (Limit(list, if limit.Some? then limit else b.limits), fs)
    else
      var list := StockList(env.refs, dr, env.today, false);
      if list == [] then ([], freqs) else (Limit(list, limit), freqs)
  }

  /** `download_all_etfs` / `download_all_lofs` for `fundType` 'ETF' or 'LOF'; `Err`
      when the fund list raises. */
  function FundsPlan(env: Env, fundType: string, limit: Option<int>, useConfig: bool,
                     freqs: Option<seq<string>>): Result<(seq<Instrument>, Option<seq<string>>)>
  {
    var dr := RangesOf(env.cfg);
    match FundList(env.refs, dr, env.today, fundType, useConfig)
    case Err(e) => Err(e)
    case Ok(list) =>
      if useConfig then
        var b := Block(env, Fund);
        if !b.enabled.GetOr(true) || fundType !in b.names.GetOr(["ETF", "LOF"]) || list == [] then Ok(([], freqs))
        else
          var fs := if freqs.Some? then freqs else Some(b.frequencies.GetOr(DailyOnly));
          Ok((Limit(list, if limit.Some? then limit else b.limits), fs))
      else if list == [] then Ok(([], freqs))
      else Ok((Limit(list, limit), freqs))
  }

  /** `download_all_indices`: the limit is applied before the emptiness test. */
  function IndicesPlan(env: Env, market: string, limit: Option<int>, useConfig: bool,
                       freqs: Option<seq<string>>): (seq<Instrument>, Option<seq<string>>)
  {
    var dr := RangesOf(env.cfg);
    if useConfig then
      var list := IndexList(env.refs, dr, env.today, market, true);
      var b := Block(env, Index);
      if !b.enabled.GetOr(true) then ([], freqs)
      else
        var cut := Limit(list, if limit.Some? then limit else b.limits);
        (cut, if freqs.Some? then freqs else Some(b.frequencies.GetOr(DailyOnly)))
    else
      var cut := Limit(IndexList(env.refs, dr, env.today, market, false), limit);
      (cut, if freqs.Some? then freqs else Some(DailyOnly))
  }

  /** `download_major_indices`: the fixed list unless the index block is disabled. */
  function MajorPlan(env: Env, useConfig: bool, freqs: Option<seq<string>>): (seq<string>, Option<seq<string>>) {
    if useConfig then
      var b := Block(env, Index);
      if !b.enabled.GetOr(true) then ([], freqs)
      else (MajorIndices, if freqs.Some? then freqs else Some(b.frequencies.GetOr(DailyOnly)))
    else (MajorIndices, if freqs.Some? then freqs else Some(DailyOnly))
  }

  /** A saved step fetched rows; in incremental mode it ran up to the global end. */
  lemma PlanStepSaved(env: Env, d: Disk, k: Kind, code: string, freq: string)
    requires Valid(env.today) && PlanStep(env, d, k, code, freq).Saved?
    ensures PlanStep(env, d, k, code, freq).data.rows != []
    ensures ModeOf(RangesOf(env.cfg)) != "full" && ModeOf(RangesOf(env.cfg)) != "custom" ==>
      PlanStep(env, d, k, code, freq).end == GlobalEnd(RangesOf(env.cfg), env.today)
  {
  }

  /** A step that plans no fetch, fails, or gets no rows changes nothing; any step
      changes at most its own ledger and the one file it saves to. */
  lemma StepFrame(env: Env, d: Disk, k: Kind, code: string, freq: string, toTemp: bool, st: Step)
    ensures !st.Saved? ==> ApplyStep(env, d, k, code, freq, toTemp, st) == d
    ensures var after := ApplyStep(env, d, k, code, freq, toTemp, st);
      forall key :: key != LedgerKey(k, freq) ==>
        (key in after.ledgers <==> key in d.ledgers) && (key in d.ledgers ==> after.ledgers[key] == d.ledgers[key])
    ensures var after := ApplyStep(env, d, k, code, freq, toTemp, st);
      var target := SaveTarget(GetDataFilePath(Folder(env, k, freq, toTemp), code));
      forall p :: p != target ==> (p in after.files <==> p in d.files) && (p in d.files ==> after.files[p] == d.files[p])
  {
    if st.Saved? {
      SaveFrame(d.files, st.data, GetDataFilePath(Folder(env, k, freq, toTemp), code), None, ModeOf(RangesOf(env.cfg)));
    }
  }

  /** A step that saved rows leaves exactly one ledger row for the code, carrying the
      watermark of what was fetched, which the planner reads back; the data file
      written is the code's own file in the frequency's folder. */
  lemma StepRecordsWatermark(env: Env, d: Disk, k: Kind, code: string, freq: string, toTemp: bool, st: Step)
    requires st.Saved? && st.data.rows != []
    requires code != [] && forall j :: 0 <= j < |code| ==> code[j] != '/'
    ensures var rows := LedgerRowsOf(ApplyStep(env, d, k, code, freq, toTemp, st).ledgers, LedgerKey(k, freq));
      (forall i :: 0 <= i < |rows| ==> (rows[i].code == code <==> i == |rows| - 1)) &&
      LastDateOf(rows, code) == Some(Watermark(freq, st.data, st.end))
    ensures var path := GetDataFilePath(Folder(env, k, freq, toTemp), code);
      var target := Join(Folder(env, k, freq, toTemp), code + Extension(DataFormat(path)));
      target == SaveTarget(path) && target in ApplyStep(env, d, k, code, freq, toTemp, st).files &&
      ApplyStep(env, d, k, code, freq, toTemp, st).files[target].Stored?
  {
    var key := LedgerKey(k, freq);
    var w := Watermark(freq, st.data, st.end);
    var after := ApplyStep(env, d, k, code, freq, toTemp, st);
    assert after.ledgers == Recorded(d.ledgers, key, code, w);
    RecordedRows(d.ledgers, key, code, w);
    var folder := Folder(env, k, freq, toTemp);
    var path := GetDataFilePath(folder, code);
    assert after.files == d.files[SaveTarget(path) := Written(d.files, st.data, path, None, ModeOf(RangesOf(env.cfg)))];
    SaveTargetOfDataFile(folder, code);
  }

  /** The ledger rows after recording (code, date): one row for the code, last, with
      that date. */
  lemma RecordedRows(ledgers: Ledgers, key: (string, string), code: string, date: string)
    ensures var rows := LedgerRowsOf(Recorded(ledgers, key, code, date), key);
      (forall i :: 0 <= i < |rows| ==> (rows[i].code == code <==> i == |rows| - 1)) &&
      LastDateOf(rows, code) == Some(date)
  {
    UpsertSpec(LedgerRowsOf(ledgers, key), code, date);
  }

  /** A step for one code leaves every other code's ledger date where it was, in every
      ledger. */
  lemma StepKeepsOtherCodes(env: Env, d: Disk, k: Kind, code: string, freq: string, toTemp: bool,
                            st: Step, key: (string, string), other: string)
    requires other != code
    ensures LastDateOf(LedgerRowsOf(ApplyStep(env, d, k, code, freq, toTemp, st).ledgers, key), other)
         == LastDateOf(LedgerRowsOf(d.ledgers, key), other)
  {
    if st.Saved? && st.data.rows != [] {
      var w := Watermark(freq, st.data, st.end);
      assert ApplyStep(env, d, k, code, freq, toTemp, st).ledgers == Recorded(d.ledgers, LedgerKey(k, freq), code, w);
      RecordedKeepsOthers(d.ledgers, LedgerKey(k, freq), code, w, key, other);
    }
  }

  /** Recording one code leaves every other code's date, in every ledger. */
  lemma RecordedKeepsOthers(ledgers: Ledgers, written: (string, string), code: string, date: string,
                            key: (string, string), other: string)
    requires other != code
    ensures LastDateOf(LedgerRowsOf(Recorded(ledgers, written, code, date), key), other)
         == LastDateOf(LedgerRowsOf(ledgers, key), other)
  {
    if key == written {
      UpsertSpec(LedgerRowsOf(ledgers, key), code, date);
    }
  }

  lemma {:induction false} StepsKeepOtherCodes(env: Env, d: Disk, k: Kind, code: string, freqs: seq<string>,
                                               toTemp: bool, key: (string, string), other: string)
    requires Valid(env.today) && other != code
    ensures LastDateOf(LedgerRowsOf(StepsSpec(env, d, k, code, freqs, toTemp).ledgers, key), other)
         == LastDateOf(LedgerRowsOf(d.ledgers, key), other)
    decreases |freqs|
  {
    if freqs != [] {
      var before := StepsSpec(env, d, k, code, freqs[..|freqs| - 1], toTemp);
      var freq := freqs[|freqs| - 1];
      StepsKeepOtherCodes(env, d, k, code, freqs[..|freqs| - 1], toTemp, key, other);
      StepKeepsOtherCodes(env, before, k, code, freq, toTemp, PlanStep(env, before, k, code, freq), key, other);
    }
  }

  /** A bulk download never changes the ledger date of a code it does not visit. */
  lemma {:induction false} CodesKeepOtherCodes(env: Env, d: Disk, k: Kind, codes: seq<string>,
                                               freqs: Option<seq<string>>, toTemp: bool,
                                               key: (string, string), other: string)
    requires Valid(env.today) && other !in codes
    ensures LastDateOf(LedgerRowsOf(CodesSpec(env, d, k, codes, freqs, toTemp).ledgers, key), other)
         == LastDateOf(LedgerRowsOf(d.ledgers, key), other)
    decreases |codes|
  {
    if codes != [] {
      var init := codes[..|codes| - 1];
      assert forall c :: c in init ==> c in codes;
      CodesKeepOtherCodes(env, d, k, init, freqs, toTemp, key, other);
      StepsKeepOtherCodes(env, CodesSpec(env, d, k, init, freqs, toTemp), k, codes[|codes| - 1],
                          SingleFrequencies(env, k, freqs), toTemp, key, other);
    }
  }

  /** In incremental mode, after a daily step that saved rows, the next plan for the
      code starts the day after the newest trade date saved: every saved date sorts
      strictly before the new start, and no valid date lies in between. */
  lemma StepResumesAfterWatermark(env: Env, d: Disk, k: Kind, code: string, toTemp: bool, st: Step)
    requires Valid(env.today)
    requires ModeOf(RangesOf(env.cfg)) != "full" && ModeOf(RangesOf(env.cfg)) != "custom"
    requires st.Saved? && st.data.rows != [] && st.data.column == TradeDate
    requires ParseYmd(Watermark("daily", st.data, st.end)).Some?
    requires ParseYmd(Watermark("daily", st.data, st.end)).value != LastDate
    ensures var w := Watermark("daily", st.data, st.end);
      var next := DownloadRange(RangesOf(env.cfg),
                    LedgerRowsOf(ApplyStep(env, d, k, code, "daily", toTemp, st).ledgers, LedgerKey(k, "daily")),
                    code, LedgerName(k), env.today);
      next.Ok? && next.value.0 == FormatYmd(Next(ParseYmd(w).value)) &&
      next.value.1 == GlobalEnd(RangesOf(env.cfg), env.today) &&
      (forall i :: 0 <= i < |st.data.rows| ==> StrLt(st.data.rows[i].key, next.value.0)) &&
      (forall x :: Valid(x) && StrLt(w, FormatYmd(x)) ==> StrLe(next.value.0, FormatYmd(x)))
  {
    var w := Watermark("daily", st.data, st.end);
    var key := LedgerKey(k, "daily");
    var rows := LedgerRowsOf(ApplyStep(env, d, k, code, "daily", toTemp, st).ledgers, key);
    UpsertSpec(LedgerRowsOf(d.ledgers, key), code, w);
    assert LastDateOf(rows, code) == Some(w);
    IncrementalResumesNextDay(RangesOf(env.cfg), rows, code, LedgerName(k), env.today, w);
    var start := FormatYmd(Next(ParseYmd(w).value));
    assert StrLt(w, start);
    forall i | 0 <= i < |st.data.rows| ensures StrLt(st.data.rows[i].key, start) {
      StrAtMostBelow(st.data.rows[i].key, w, start);
    }
  }

  lemma StrAtMostBelow(a: string, b: string, c: string)
    requires StrLe(a, b) && StrLt(b, c)
    ensures StrLt(a, c)
  {
    StrLeTrans(a, b, c);
    if a == c {
      StrLeAntisym(b, c);
    }
  }

  /** Running the same daily step again once the saved data reaches the end date
      finds the code up to date and changes nothing. */
  lemma StepUpToDateAfterEnd(env: Env, d: Disk, k: Kind, code: string, toTemp: bool)
    requires Valid(env.today)
    requires ModeOf(RangesOf(env.cfg)) != "full" && ModeOf(RangesOf(env.cfg)) != "custom"
    requires PlanStep(env, d, k, code, "daily").Saved? && PlanStep(env, d, k, code, "daily").data.column == TradeDate
    requires var st := PlanStep(env, d, k, code, "daily");
      Watermark("daily", st.data, st.end) == st.end &&
      ParseYmd(st.end).Some? && ParseYmd(st.end).value != LastDate
    ensures PlanStep(env, StepSpec(env, d, k, code, "daily", toTemp), k, code, "daily").UpToDate?
    ensures StepSpec(env, StepSpec(env, d, k, code, "daily", toTemp), k, code, "daily", toTemp)
         == StepSpec(env, d, k, code, "daily", toTemp)
  {
    var st := PlanStep(env, d, k, code, "daily");
    PlanStepSaved(env, d, k, code, "daily");
    var after := StepSpec(env, d, k, code, "daily", toTemp);
    var key := LedgerKey(k, "daily");
    UpsertSpec(LedgerRowsOf(d.ledgers, key), code, st.end);
    UpToDateIsSkipped(RangesOf(env.cfg), LedgerRowsOf(after.ledgers, key), code, LedgerName(k), env.today, st.end);
    StepFrame(env, after, k, code, "daily", toTemp, PlanStep(env, after, k, code, "daily"));
  }

  /** The stocks a bulk download visits are the head of the stock list: the caller's
      limit, else the configured one, cuts it as `head` does; a disabled stock block
      visits none. */
  lemma StocksPlanSpec(env: Env, limit: Option<int>, useConfig: bool, freqs: Option<seq<string>>)
    ensures var rows := StocksPlan(env, limit, useConfig, freqs).0;
      var list := StockList(env.refs, RangesOf(env.cfg), env.today, useConfig);
      var lim := if useConfig && limit.None? then Block(env, Stock).limits else limit;
      IsSubseq(rows, list) &&
      (useConfig && !Block(env, Stock).enabled.GetOr(true) ==> rows == []) &&
      (!useConfig || Block(env, Stock).enabled.GetOr(true) ==> IsHead(rows, list, lim)) &&
      (limit.Some? && limit.value > 0 ==> |rows| <= limit.value) &&
      (freqs.Some? ==> StocksPlan(env, limit, useConfig, freqs).1 == freqs)
  {
    var list := StockList(env.refs, RangesOf(env.cfg), env.today, useConfig);
    var rows := StocksPlan(env, limit, useConfig, freqs).0;
    if rows == [] {
      assert IsSubseq<Instrument>([], list);
    }
  }

  /** ETF (or LOF) downloads visit nothing unless the type is among the configured
      names, 'ETF' and 'LOF' by default; otherwise they visit the head of the fund
      list under the caller's limit, else the configured one. */
  lemma FundsPlanSpec(env: Env, fundType: string, limit: Option<int>, useConfig: bool, freqs: Option<seq<string>>)
    requires FundsPlan(env, fundType, limit, useConfig, freqs).Ok?
    ensures var rows := FundsPlan(env, fundType, limit, useConfig, freqs).value.0;
      var list := FundList(env.refs, RangesOf(env.cfg), env.today, fundType, useConfig);
      var b := Block(env, Fund);
      var lim := if useConfig && limit.None? then b.limits else limit;
      list.Ok? && IsSubseq(rows, list.value) &&
      (useConfig && fundType !in b.names.GetOr(["ETF", "LOF"]) ==> rows == []) &&
      (useConfig && !b.enabled.GetOr(true) ==> rows == []) &&
      (!useConfig || (b.enabled.GetOr(true) && fundType in b.names.GetOr(["ETF", "LOF"])) ==>
        IsHead(rows, list.value, lim)) &&
      (limit.Some? && limit.value > 0 ==> |rows| <= limit.value)
  {
    var list := FundList(env.refs, RangesOf(env.cfg), env.today, fundType, useConfig);
    var rows := FundsPlan(env, fundType, limit, useConfig, freqs).value.0;
    if rows == [] {
      assert IsSubseq<Instrument>([], list.value);
    }
  }

  /** Index downloads visit the head of the index list, cut by the caller's limit,
      else the configured one, and default to daily bars. */
  lemma IndicesPlanSpec(env: Env, market: string, limit: Option<int>, useConfig: bool, freqs: Option<seq<string>>)
    ensures var plan := IndicesPlan(env, market, limit, useConfig, freqs);
      var list := IndexList(env.refs, RangesOf(env.cfg), env.today, market, useConfig);
      var lim := if useConfig && limit.None? then Block(env, Index).limits else limit;
      IsSubseq(plan.0, list) &&
      (useConfig && !Block(env, Index).enabled.GetOr(true) ==> plan.0 == []) &&
      (!useConfig || Block(env, Index).enabled.GetOr(true) ==> IsHead(plan.0, list, lim)) &&
      (limit.Some? && limit.value > 0 ==> |plan.0| <= limit.value) &&
      (freqs.None? && !useConfig ==> plan.1 == Some(["daily"])) &&
      (freqs.None? && useConfig && Block(env, Index).enabled.GetOr(true) && Block(env, Index).frequencies.None? ==>
        plan.1 == Some(["daily"]))
  {
    var list := IndexList(env.refs, RangesOf(env.cfg), env.today, market, useConfig);
    if IndicesPlan(env, market, limit, useConfig, freqs).0 == [] {
      assert IsSubseq<Instrument>([], list);
    }
  }

  /** The major-index download visits the eighteen fixed codes, unless disabled. */
  lemma MajorPlanSpec(env: Env, useConfig: bool, freqs: Option<seq<string>>)
    ensures var plan := MajorPlan(env, useConfig, freqs);
      (!useConfig || Block(env, Index).enabled.GetOr(true) ==> plan.0 == MajorIndices && |plan.0| == 18) &&
      (useConfig && !Block(env, Index).enabled.GetOr(true) ==> plan.0 == [])
  {
  }

  class Archive {
    const env: Env
    var files: Store
    var ledgers: Ledgers

    constructor (env: Env, files: Store, ledgers: Ledgers)
      ensures this.env.cfg == env.cfg && this.env.today == env.today && this.env.refs == env.refs
      ensures this.files == files && this.ledgers == ledgers
    {
      this.env := env;
      this.files := files;
      this.ledgers := ledgers;
    }

    function State(): Disk
      reads this
    {
      Disk(files, ledgers)
    }

    function GetLastSyncInfo(k: Kind, freq: string): seq<SyncRow>
      reads this
    {
      LedgerRowsOf(ledgers, LedgerKey(k, freq))
    }

    /** `update_sync_info`: the ledger file is replaced by `rows`. */
    method UpdateSyncInfo(k: Kind, freq: string, rows: seq<SyncRow>)
      modifies this
      ensures ledgers == old(ledgers)[LedgerKey(k, freq) := LedgerRows(rows)]
      ensures files == old(files)
    {
      ledgers := ledgers[LedgerKey(k, freq) := LedgerRows(rows)];
    }

    /** `save_data_to_file`: read the target, merge or overwrite, write it back. */
    method SaveDataToFile(data: Table, path: string, append: Option<bool>)
      modifies this
      ensures files == SaveSpec(old(files), data, path, append, ModeOf(RangesOf(env.cfg)))
      ensures ledgers == old(ledgers)
    {
      if data.rows == [] {
        return;
      }
      var target := SaveTarget(path);
      if AppendChosen(append, ModeOf(RangesOf(env.cfg))) && target in files {
        var existing := files[target];
        if existing.Stored? {
          files := files[target := Stored(Merged(existing.table, data))];
        } else {
          files := files[target := Stored(data)];
        }
      } else {
        files := files[target := Stored(Overwritten(data))];
      }
    }

    /** One pass of the frequency loop of `download_single_*`. */
    method SyncFrequency(k: Kind, code: string, freq: string, toTemp: bool) returns (step: Step)
      requires Valid(env.today)
      modifies this
      ensures step == PlanStep(env, old(State()), k, code, freq)
      ensures State() == StepSpec(env, old(State()), k, code, freq, toTemp)
    {
      var range := DownloadRange(RangesOf(env.cfg), GetLastSyncInfo(k, freq), code, LedgerName(k), env.today);
      if range.Err? {
        return Failed;
      }
      var start, end := range.value.0, range.value.1;
      if Skip(start, end) {
        return UpToDate(start, end);
      }
      var data := Fetch(env.remote, RetryCount(env.cfg), env.refs, k, code, freq, start, end);
      if data.rows == [] {
        return NoData(start, end);
      }
      SaveDataToFile(data, GetDataFilePath(Folder(env, k, freq, toTemp), code), None);
      var latest := Watermark(freq, data, end);
      var rows := GetLastSyncInfo(k, freq);
      UpdateSyncInfo(k, freq, Upsert(rows, code, latest));
      step := Saved(start, end, data);
    }

    /** `download_single_stock` / `_fund` / `_index`: every frequency in turn; a
      failing frequency does not stop the others. */
    method DownloadSingle(k: Kind, code: string, freqs: Option<seq<string>>, toTemp: bool)
      requires Valid(env.today)
      modifies this
      ensures State() == StepsSpec(env, old(State()), k, code, SingleFrequencies(env, k, freqs), toTemp)
    {
      var fs := SingleFrequencies(env, k, freqs);
      var i := 0;
      while i < |fs|
        invariant 0 <= i <= |fs|
        invariant State() == StepsSpec(env, old(State()), k, code, fs[..i], toTemp)
      {
        var _ := SyncFrequency(k, code, fs[i], toTemp);
        StepsSnoc(env, old(State()), k, code, fs, i, toTemp);
        i := i + 1;
      }
      assert fs[..|fs|] == fs;
    }

    /** The loop shared by the bulk downloads: every code once, in order. */
    method DownloadCodes(k: Kind, codes: seq<string>, freqs: Option<seq<string>>, toTemp: bool)
      requires Valid(env.today)
      modifies this
      ensures State() == CodesSpec(env, old(State()), k, codes, freqs, toTemp)
    {
      var i := 0;
      while i < |codes|
        invariant 0 <= i <= |codes|
        invariant State() == CodesSpec(env, old(State()), k, codes[..i], freqs, toTemp)
      {
        DownloadSingle(k, codes[i], freqs, toTemp);
        CodesSnoc(env, old(State()), k, codes, i, freqs, toTemp);
        i := i + 1;
      }
      assert codes[..|codes|] == codes;
    }

    /** The row loop of `download_all_stocks` and `download_all_indices`: a row whose
        name is empty raises before its download and is skipped. */
    method DownloadNamedRows(k: Kind, rows: seq<Instrument>, freqs: Option<seq<string>>, toTemp: bool)
      returns (visited: seq<string>)
      requires Valid(env.today)
      modifies this
      ensures visited == NamedCodes(rows)
      ensures State() == CodesSpec(env, old(State()), k, visited, freqs, toTemp)
    {
      visited := [];
      var i := 0;
      while i < |rows|
        invariant 0 <= i <= |rows|
        invariant visited == NamedCodes(rows[..i])
        invariant State() == CodesSpec(env, old(State()), k, visited, freqs, toTemp)
      {
        NamedCodesSnoc(rows, i);
        if rows[i].name.Some? {
          DownloadSingle(k, rows[i].code, freqs, toTemp);
          CodesAppendOne(env, old(State()), k, visited, rows[i].code, freqs, toTemp);
          visited := visited + [rows[i].code];
        }
        i := i + 1;
      }
      assert rows[..|rows|] == rows;
    }

    method DownloadAllStocks(limit: Option<int>, useConfig: bool, toTemp: bool, freqs: Option<seq<string>>)
      returns (visited: seq<string>)
      requires Valid(env.today)
      modifies this
      ensures visited == NamedCodes(StocksPlan(env, limit, useConfig, freqs).0)
      ensures State() == CodesSpec(env, old(State()), Stock, visited, StocksPlan(env, limit, useConfig, freqs).1, toTemp)
    {
      var plan := StocksPlan(env, limit, useConfig, freqs);
      visited := DownloadNamedRows(Stock, plan.0, plan.1, toTemp);
    }

    /** `download_all_etfs` (`fundType` 'ETF') and `download_all_lofs` ('LOF'). */
    method DownloadAllFunds(fundType: string, limit: Option<int>, useConfig: bool, toTemp: bool,
                            freqs: Option<seq<string>>) returns (visited: Result<seq<string>>)
      requires Valid(env.today)
      modifies this
      ensures FundsPlan(env, fundType, limit, useConfig, freqs).Err? ==> visited.Err? && State() == old(State())
      ensures FundsPlan(env, fundType, limit, useConfig, freqs).Ok? ==>
        visited == Ok(Codes(FundsPlan(env, fundType, limit, useConfig, freqs).value.0)) &&
        State() == CodesSpec(env, old(State()), Fund, visited.value, FundsPlan(env, fundType, limit, useConfig, freqs).value.1, toTemp)
    {
      var plan := FundsPlan(env, fundType, limit, useConfig, freqs);
      if plan.Err? {
        return Err(plan.reason);
      }
      var codes := Codes(plan.value.0);
      DownloadCodes(Fund, codes, plan.value.1, toTemp);
      visited := Ok(codes);
    }

    method DownloadAllIndices(market: string, limit: Option<int>, useConfig: bool, toTemp: bool,
                              freqs: Option<seq<string>>) returns (visited: seq<string>)
      requires Valid(env.today)
      modifies this
      ensures visited == NamedCodes(IndicesPlan(env, market, limit, useConfig, freqs).0)
      ensures State() == CodesSpec(env, old(State()), Index, visited, IndicesPlan(env, market, limit, useConfig, freqs).1, toTemp)
    {
      var plan := IndicesPlan(env, market, limit, useConfig, freqs);
      visited := DownloadNamedRows(Index, plan.0, plan.1, toTemp);
    }

    method DownloadMajorIndices(useConfig: bool, toTemp: bool, freqs: Option<seq<string>>)
      returns (visited: seq<string>)
      requires Valid(env.today)
      modifies this
      ensures visited == MajorPlan(env, useConfig, freqs).0
      ensures State() == CodesSpec(env, old(State()), Index, visited, MajorPlan(env, useConfig, freqs).1, toTemp)
    {
      var plan := MajorPlan(env, useConfig, freqs);
      visited := plan.0;
      DownloadCodes(Index, visited, plan.1, toTemp);
    }

    /** `download_stock_list` / `download_fund_list`: the given codes into the main
      data folders, each code resolving its own frequencies. */
    method DownloadList(k: Kind, codes: seq<string>, freqs: Option<seq<string>>)
      requires Valid(env.today) && k != Index
      modifies this
      ensures State() == CodesSpec(env, old(State()), k, codes, freqs, false)
    {
      DownloadCodes(k, codes, freqs, false);
    }

    /** `download_index_list`: daily unless frequencies are given. */
    method DownloadIndexList(codes: seq<string>, toTemp: bool, freqs: Option<seq<string>>)
      requires Valid(env.today)
      modifies this
      ensures State() == CodesSpec(env, old(State()), Index, codes, Some(freqs.GetOr(DailyOnly)), toTemp)
    {
      DownloadCodes(Index, codes, Some(freqs.GetOr(DailyOnly)), toTemp);
    }
  }
}
