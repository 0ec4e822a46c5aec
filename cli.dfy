/** The command-line driver: the token check, the rewriting of the configuration
    for `--start-date`/`--end-date`, the download plans of `download_by_config`
    and `download_all`, and the batch loop of `fill_missing_minutes`. */
module Cli {
  import opened Wrappers
  import opened Text
  import opened Calendar
  import opened Settings
  import opened Ledger
  import opened Planner
  import opened Retrieval
  import opened Persist
  import opened Sync

  /** `config.json` as the driver finds it. */
  datatype ConfigFile = Missing | Unparsable | Parsed(cfg: Config)

  /** A usable token: present, non-empty and not the placeholder. */
  predicate TokenSet(token: Option<string>) {
    token.Some? && token.value != "" && token.value != "YOUR_TOKEN_HERE"
  }

  /** `check_config_file`: a missing file is created with the placeholder token, so
      it fails too. */
  function CheckConfigFile(f: ConfigFile): (ok: bool)
    ensures ok <==> f.Parsed? && TokenSet(f.cfg.token)
  {
    match f
    case Parsed(c) => TokenSet(c.token)
    case _ => false
  }

  /** Python truthiness of an optional command-line string. */
  predicate Given(s: Option<string>) {
    s.Some? && s.value != ""
  }

  /** Which configuration the downloaders are started with. */
  datatype ConfigChoice = Original | Rewritten(cfg: Config)

  /** `apply_date_args_to_config`: with a date argument, the dates given replace the
      global defaults and the mode becomes 'full'; without one, or when the file
      cannot be read, the original file is used. */
  function ApplyDateArgs(f: ConfigFile, start: Option<string>, end: Option<string>): ConfigChoice {
    if !Given(start) && !Given(end) then Original
    else if !f.Parsed? then Original
    else
      var dr := RangesOf(f.cfg);
      var dr1 := dr.(defaultStart := if Given(start) then start else dr.defaultStart,
                     defaultEnd := if Given(end) then end else dr.defaultEnd,
                     updateMode := Some("full"));
      Rewritten(f.cfg.(dateRanges := Some(dr1)))
  }

  /** A rewritten configuration is in full mode, keeps everything else, and carries the
      dates given; so every code of every asset class is planned over exactly the
      range given, whatever its ledger says. */
  lemma ApplyDateArgsSpec(f: ConfigFile, start: Option<string>, end: Option<string>, today: Date,
                          ledger: seq<SyncRow>, code: string, assetType: string)
    requires Valid(today)
    ensures !Given(start) && !Given(end) ==> ApplyDateArgs(f, start, end) == Original
    ensures !f.Parsed? ==> ApplyDateArgs(f, start, end) == Original
    ensures (Given(start) || Given(end)) && f.Parsed? ==>
      var r := ApplyDateArgs(f, start, end);
      r.Rewritten? && r.cfg.token == f.cfg.token && r.cfg.dataRoot == f.cfg.dataRoot && r.cfg.retry == f.cfg.retry &&
      ModeOf(RangesOf(r.cfg)) == "full" &&
      RangesOf(r.cfg).customRanges == RangesOf(f.cfg).customRanges &&
      (Given(start) ==> RangesOf(r.cfg).defaultStart == start) &&
      (Given(end) ==> RangesOf(r.cfg).defaultEnd == end)
    ensures Given(start) && Given(end) && start.value != "auto" && end.value != "auto" && f.Parsed? ==>
      DownloadRange(RangesOf(ApplyDateArgs(f, start, end).cfg), ledger, code, assetType, today) ==
        Ok((start.value, end.value))
  {
  }

  /** One bulk call of the driver. */
  datatype Job =
    | AllStocks(limit: Option<int>, useConfig: bool, freqs: Option<seq<string>>)
    | AllFunds(fundType: string, limit: Option<int>, useConfig: bool, freqs: Option<seq<string>>)
    | AllIndices(limit: Option<int>, useConfig: bool)
    | Majors

  /** `download_by_config`: each asset class needs its own `custom_ranges` entry,
      enabled unless it says otherwise; funds run for each configured name 'ETF' /
      'LOF'; indices take the major list in custom mode when `major_only` (default
      true) says so, and the full list otherwise. */
  function ByConfigJobs(cfg: Config): seq<Job> {
    var dr := RangesOf(cfg);
    var cr := dr.customRanges;
    var stocks := if "stocks" in cr && cr["stocks"].enabled.GetOr(true) then [AllStocks(None, true, None)] else [];
    var funds :=
      if "funds" in cr && cr["funds"].enabled.GetOr(true) then
        var types := cr["funds"].names.GetOr(["ETF", "LOF"]);
        (if "ETF" in types then [AllFunds("ETF", None, true, None)] else []) +
        (if "LOF" in types then [AllFunds("LOF", None, true, None)] else [])
      else [];
    var indices :=
      if "indices" in cr && cr["indices"].enabled.GetOr(true) then
        if ModeOf(dr) == "custom" then
          var b := cr["indices"];
          if b.majorOnly.GetOr(true) then [Majors] else [AllIndices(b.limits, true)]
        else [AllIndices(dr.limits, true)]
      else [];
    stocks + funds + indices
  }

  /** In custom mode the index job follows the block's `major_only` (default true)
      and its limit; in the other modes every index is downloaded under the global
      limit. Nothing is downloaded for an asset class without a `custom_ranges`
      entry, whatever the mode. */
  lemma ByConfigIndexStrategy(cfg: Config)
    ensures var cr := RangesOf(cfg).customRanges;
      "indices" in cr && cr["indices"].enabled.GetOr(true) && ModeOf(RangesOf(cfg)) == "custom" ==>
        (cr["indices"].majorOnly.GetOr(true) <==> Majors in ByConfigJobs(cfg)) &&
        (!cr["indices"].majorOnly.GetOr(true) ==> AllIndices(cr["indices"].limits, true) in ByConfigJobs(cfg))
    ensures var cr := RangesOf(cfg).customRanges;
      "indices" in cr && cr["indices"].enabled.GetOr(true) && ModeOf(RangesOf(cfg)) != "custom" ==>
        Majors !in ByConfigJobs(cfg) && AllIndices(RangesOf(cfg).limits, true) in ByConfigJobs(cfg)
    ensures RangesOf(cfg).customRanges == map[] ==> ByConfigJobs(cfg) == []
    ensures var cr := RangesOf(cfg).customRanges;
      ("funds" !in cr || !cr["funds"].enabled.GetOr(true)) ==> forall j :: j in ByConfigJobs(cfg) ==> !j.AllFunds?
  {
  }

  /** `download_all`: every index without configuration screens, the ETFs, then the
      stocks, at most 100 unless a non-zero limit is given. */
  function AllJobs(freqs: Option<seq<string>>, limit: Option<int>): (jobs: seq<Job>)
    ensures |jobs| == 3 && jobs[2].AllStocks? && jobs[2].limit.Some?
    ensures limit.None? || limit == Some(0) ==> jobs[2].limit == Some(100)
    ensures limit.Some? && limit.value != 0 ==> jobs[2].limit == limit
    ensures forall j :: j in jobs ==> !j.Majors? && (j.AllIndices? ==> !j.useConfig)
  {
    var stockLimit := if limit.Some? && limit.value != 0 then limit.value else 100;
    [AllIndices(None, false), AllFunds("ETF", limit, false, freqs), AllStocks(Some(stockLimit), false, freqs)]
  }

  /** `Path(name).stem`. */
  function Stem(name: string): string {
    NameWithSuffix(name, "")
  }

  /** The stem of a data file is the instrument code it was saved for. */
  lemma StemOfDataFile(code: string, f: Format)
    requires code != []
    ensures Stem(code + Extension(f)) == code
  {
    NameWithSuffixRenames(code, f, "");
  }

  /** The set of stems of the data files listed, built one file at a time. */
  method CollectStems(names: seq<string>) returns (codes: set<string>)
    ensures codes == set n | n in names :: Stem(n)
  {
    codes := {};
    var i := 0;
    while i < |names|
      invariant 0 <= i <= |names|
      invariant codes == set n | n in names[..i] :: Stem(n)
    {
      assert names[..i + 1] == names[..i] + [names[i]];
      codes := codes + {Stem(names[i])};
      i := i + 1;
    }
    assert names[..|names|] == names;
  }

  /** `all_codes - downloaded_codes`. */
  function MissingCodes(catalog: seq<string>, downloaded: set<string>): set<string> {
    set c | c in catalog && c !in downloaded
  }

  function Absent(catalog: seq<string>, downloaded: set<string>): (r: seq<string>)
    ensures forall c :: c in r <==> c in catalog && c !in downloaded
  {
    if catalog == [] then []
    else (if catalog[0] in downloaded then [] else [catalog[0]]) + Absent(catalog[1..], downloaded)
  }

  /** `sorted(list(missing_codes))`. */
  function MissingList(catalog: seq<string>, downloaded: set<string>): seq<string> {
    SortUnique(Absent(catalog, downloaded))
  }

  /** The missing list holds each missing code once, in increasing order, and nothing
      else. */
  lemma MissingListSpec(catalog: seq<string>, downloaded: set<string>)
    ensures StrictlyIncreasing(MissingList(catalog, downloaded))
    ensures forall c :: c in MissingList(catalog, downloaded) <==> c in MissingCodes(catalog, downloaded)
    ensures |MissingList(catalog, downloaded)| == |MissingCodes(catalog, downloaded)|
  {
    var r := MissingList(catalog, downloaded);
    SortUniqueSpec(Absent(catalog, downloaded));
    IncreasingCount(r);
    assert (set x | x in r) == MissingCodes(catalog, downloaded);
  }

  const BatchSize := 100

  /** `fill_missing_minutes`: the missing codes in sorted slices of 100, each handed
      to `download_stock_list` with 'minute_1'. */
  method FillMissingMinutes(a: Archive, catalog: Option<seq<string>>, names: seq<string>)
    returns (success: nat, errors: nat, batches: nat)
    requires Valid(a.env.today)
    modifies a
    ensures catalog.None? ==> success == 0 && errors == 0 && batches == 0 && a.State() == old(a.State())
    ensures catalog.Some? ==>
      var missing := MissingList(catalog.value, set n | n in names :: Stem(n));
      success + errors == |missing| && errors == 0 &&
      batches == (|missing| + BatchSize - 1) / BatchSize &&
      a.State() == CodesSpec(a.env, old(a.State()), Stock, missing, Some(["minute_1"]), false)
  {
    if catalog.None? {
      return 0, 0, 0;
    }
    var downloaded := CollectStems(names);
    var missing := MissingList(catalog.value, downloaded);
    success, errors, batches := DownloadInBatches(a, missing);
  }

  /** The batch loop of `fill_missing_minutes`. A batch that raised would be counted
      as failed; within the model `download_stock_list` absorbs every per-code
      failure, so every code counts as a success. */
  method DownloadInBatches(a: Archive, missing: seq<string>) returns (success: nat, errors: nat, batches: nat)
    requires Valid(a.env.today)
    modifies a
    ensures success + errors == |missing| && errors == 0
    ensures batches == (|missing| + BatchSize - 1) / BatchSize
    ensures a.State() == CodesSpec(a.env, old(a.State()), Stock, missing, Some(["minute_1"]), false)
  {
    success, errors, batches := 0, 0, 0;
    ghost var d0 := a.State();
    var i := 0;
    while i < |missing|
      invariant 0 <= i <= |missing|
      invariant i < |missing| ==> i == batches * BatchSize
      invariant batches == (i + BatchSize - 1) / BatchSize
      invariant success == i && errors == 0
      invariant a.State() == CodesSpec(a.env, d0, Stock, missing[..i], Some(["minute_1"]), false)
    {
      var j := if i + BatchSize <= |missing| then i + BatchSize else |missing|;
      var batch := missing[i..j];
      a.DownloadList(Stock, batch, Some(["minute_1"]));
      CodesSpecAppend(a.env, d0, Stock, missing[..i], batch, Some(["minute_1"]), false);
      SliceJoin(missing, i, j);
      BatchCount(batches, j);
      success := success + |batch|;
      batches := batches + 1;
      i := j;
    }
    assert missing[..|missing|] == missing;
  }

  lemma SliceJoin<T>(s: seq<T>, i: nat, j: nat)
    requires i <= j <= |s|
    ensures s[..i] + s[i..j] == s[..j]
  {
  }

  /** One more slice of at most a hundred codes after `b` full slices is one more batch. */
  lemma BatchCount(b: nat, j: nat)
    requires b * BatchSize < j <= b * BatchSize + BatchSize
    ensures (j + BatchSize - 1) / BatchSize == b + 1
  {
  }

  /** Downloading two lists one after the other is downloading their concatenation. */
  lemma {:induction false} CodesSpecAppend(env: Env, d: Disk, k: Kind, xs: seq<string>, ys: seq<string>,
                                           freqs: Option<seq<string>>, toTemp: bool)
    requires Valid(env.today)
    ensures CodesSpec(env, CodesSpec(env, d, k, xs, freqs, toTemp), k, ys, freqs, toTemp)
         == CodesSpec(env, d, k, xs + ys, freqs, toTemp)
    decreases |ys|
  {
    if ys == [] {
      assert xs + ys == xs;
    } else {
      var init := ys[..|ys| - 1];
      CodesSpecAppend(env, d, k, xs, init, freqs, toTemp);
      assert (xs + ys)[..|xs + ys| - 1] == xs + init;
      assert (xs + ys)[|xs + ys| - 1] == ys[|ys| - 1];
    }
  }
}
