/** The `config.json` settings the engine reads, and `get_config_for_asset`, which
    picks the settings of one asset class according to the update mode. */
module Settings {
  import opened Wrappers
  import opened Text
  import opened Calendar

  /** One `custom_ranges` entry. `None` marks a key absent from the JSON object. */
  datatype AssetBlock = AssetBlock(
    enabled: Option<bool>,
    startDate: Option<string>,
    endDate: Option<string>,
    limits: Option<int>,
    frequencies: Option<seq<string>>,
    directories: Option<string>,
    lookbackDays: Option<int>,
    exchanges: Option<seq<string>>,
    markets: Option<seq<string>>,
    minListDate: Option<string>,
    delistDate: Option<string>,
    excludeSt: Option<bool>,
    excludeDelisted: Option<bool>,
    names: Option<seq<string>>,
    management: Option<seq<string>>,
    categories: Option<seq<string>>,
    majorOnly: Option<bool>,
    expDate: Option<string>)

  const NoSettings := AssetBlock(None, None, None, None, None, None, None, None, None,
    None, None, None, None, None, None, None, None, None)

  /** The `date_ranges` object. */
  datatype DateRanges = DateRanges(
    updateMode: Option<string>,
    defaultStart: Option<string>,
    defaultEnd: Option<string>,
    lookbackDays: Option<int>,
    limits: Option<int>,
    customRanges: map<string, AssetBlock>)

  const NoRanges := DateRanges(None, None, None, None, None, map[])

  /** The part of `config.json` the engine consults. */
  datatype Config = Config(
    token: Option<string>,
    dataRoot: Option<string>,
    retry: Option<int>,
    dateRanges: Option<DateRanges>)

  /** `config.get('date_ranges', {})`. */
  function RangesOf(cfg: Config): DateRanges {
    cfg.dateRanges.GetOr(NoRanges)
  }

  function ModeOf(dr: DateRanges): string {
    dr.updateMode.GetOr("incremental")
  }

  /** `datetime.now().strftime('%Y%m%d')`. */
  function TodayText(today: Date): string {
    FormatYmd(today)
  }

  /** A configured date with 'auto' standing for today. */
  function AutoToday(s: string, today: Date): (r: string)
    ensures s != "auto" ==> r == s
    ensures s == "auto" ==> r == FormatYmd(today)
  {
    if s == "auto" then TodayText(today) else s
  }

  /** The ledger and data directories name stocks 'equities'; the configuration
      calls them 'stocks'. */
  function ConfigName(assetType: string): (r: string)
    ensures assetType == "equities" ==> r == "stocks"
    ensures assetType != "equities" ==> r == assetType
  {
    if assetType == "equities" then "stocks" else assetType
  }

  const DailyOnly: seq<string> := ["daily"]

  /** `get_config_for_asset`. */
  function ConfigForAsset(dr: DateRanges, assetType: string, today: Date): AssetBlock {
    var todayText := TodayText(today);
    if ModeOf(dr) == "custom" then
      var name := ConfigName(assetType);
      if name in dr.customRanges then
        var b := dr.customRanges[name];
        b.(startDate := if b.startDate.None? || b.startDate == Some("auto")
                        then Some(dr.defaultStart.GetOr("20100101")) else b.startDate,
           endDate := if b.endDate.None? || b.endDate == Some("auto")
                      then Some(todayText) else b.endDate,
           limits := if b.limits.None? then dr.limits else b.limits)
      else
        NoSettings.(enabled := Some(true),
                    startDate := Some(dr.defaultStart.GetOr("20100101")),
                    endDate := Some(todayText),
                    limits := dr.limits,
                    frequencies := Some(DailyOnly))
    else
      NoSettings.(enabled := Some(true),
                  startDate := Some(AutoToday(dr.defaultStart.GetOr("20100101"), today)),
                  endDate := Some(AutoToday(dr.defaultEnd.GetOr("auto"), today)),
                  limits := dr.limits,
                  frequencies := Some(DailyOnly),
                  lookbackDays := Some(dr.lookbackDays.GetOr(1800)))
  }

  /** In custom mode an asset's own block is used: every setting it has is kept, a
      missing or 'auto' end date becomes today, a missing start date the global
      default start, and a missing limit the global limit. */
  lemma ConfigForCustomBlock(dr: DateRanges, assetType: string, today: Date)
    requires ModeOf(dr) == "custom" && ConfigName(assetType) in dr.customRanges
    ensures var b := dr.customRanges[ConfigName(assetType)];
      var c := ConfigForAsset(dr, assetType, today);
      c.enabled == b.enabled && c.frequencies == b.frequencies && c.directories == b.directories &&
      c.exchanges == b.exchanges && c.markets == b.markets && c.minListDate == b.minListDate &&
      c.names == b.names && c.majorOnly == b.majorOnly &&
      c.startDate.Some? && c.endDate.Some? &&
      (b.startDate.Some? && b.startDate != Some("auto") ==> c.startDate == b.startDate) &&
      (b.startDate.None? || b.startDate == Some("auto") ==> c.startDate == Some(dr.defaultStart.GetOr("20100101"))) &&
      (b.endDate.Some? && b.endDate != Some("auto") ==> c.endDate == b.endDate) &&
      (b.endDate.None? || b.endDate == Some("auto") ==> c.endDate == Some(FormatYmd(today))) &&
      (b.limits.Some? ==> c.limits == b.limits) &&
      (b.limits.None? ==> c.limits == dr.limits)
  {
  }

  /** In custom mode an asset without a block of its own gets defaults: enabled,
      daily only, the global limit, today as end, and the global start date as it is
      written (an 'auto' start is not resolved here). */
  lemma ConfigForMissingBlock(dr: DateRanges, assetType: string, today: Date)
    requires ModeOf(dr) == "custom" && ConfigName(assetType) !in dr.customRanges
    ensures var c := ConfigForAsset(dr, assetType, today);
      c.enabled == Some(true) && c.frequencies == Some(["daily"]) && c.limits == dr.limits &&
      c.startDate == Some(dr.defaultStart.GetOr("20100101")) && c.endDate == Some(FormatYmd(today)) &&
      c.exchanges.None? && c.markets.None? && c.minListDate.None? && c.names.None? && c.majorOnly.None?
  {
  }

  /** Outside custom mode the settings are the global ones: enabled, daily only,
      'auto' dates resolved to today and a lookback of 1800 days by default. */
  lemma ConfigForGlobalModes(dr: DateRanges, assetType: string, today: Date)
    requires ModeOf(dr) != "custom"
    ensures var c := ConfigForAsset(dr, assetType, today);
      c.enabled == Some(true) && c.frequencies == Some(["daily"]) && c.limits == dr.limits &&
      c.startDate.Some? && c.startDate.value != "auto" &&
      c.endDate.Some? && c.endDate.value != "auto" &&
      (dr.defaultStart.None? ==> c.startDate == Some("20100101")) &&
      (dr.defaultEnd.None? ==> c.endDate == Some(FormatYmd(today))) &&
      c.lookbackDays == Some(dr.lookbackDays.GetOr(1800))
  {
    FormatYmdIsNotAuto(today);
  }

  /** In custom mode, a block's missing start date takes the global default verbatim:
      a default of 'auto' is not resolved and stays the text 'auto'. */
  lemma CustomStartAutoStaysAuto(dr: DateRanges, assetType: string, today: Date)
    requires ModeOf(dr) == "custom" && ConfigName(assetType) in dr.customRanges
    requires dr.customRanges[ConfigName(assetType)].startDate.None?
    requires dr.defaultStart == Some("auto")
    ensures ConfigForAsset(dr, assetType, today).startDate == Some("auto")
  {
  }

  lemma FormatYmdIsNotAuto(d: Date)
    ensures FormatYmd(d) != "auto"
  {
    var s := FormatYmd(d);
    assert IsDigit(s[0]);
  }
}
