# TushareData incremental synchronisation engine in Dafny

This project models the engine that keeps a local archive of Chinese market data in
step with the Tushare service. It covers stocks, funds and indices, at daily and
minute frequencies, and proves properties of that model.

For every (code, frequency) pair the engine works in five steps:

- It plans a date range from the configuration and a per-asset, per-frequency sync
  ledger. The ledger records the last date stored for each code.
- It skips the pair when the range is empty as text (`start >= end`).
- It fetches rows through a retrying call. Minute data is fetched in calendar-month
  batches, clamped to the listing date, then deduplicated and sorted.
- It saves the rows, merging them into the existing file or overwriting it.
- It upserts the ledger with the watermark of what came back.

Around the engine sit two more pieces:

- The catalog screens that choose which codes a bulk download visits.
- The command-line helpers and the minute-data report: date arguments, missing-code
  batching, the missing/abnormal/outdated analysis and the recommendations.

Modules, one per concern of the source:

| module | file | models |
|---|---|---|
| `Wrappers` | wrappers.dfy | `Option` and `Result` |
| `Text` | text.dfy | Python string order, substring search, digits, `sorted(set(...))` |
| `Calendar` | calendar.dfy | calendar dates, next/previous day, first of next month, `%Y%m%d` text |
| `Tables` | tables.dfy | rows keyed by (code, date or time), keep-last dedup, the code-ascending/key-descending sort, the append merge |
| `Settings` | settings.dfy | `config.json` and `get_config_for_asset` |
| `Planner` | planner.dfy | `calculate_download_range` and the skip rule |
| `Ledger` | ledger.dfy | the sync ledger, its upsert and the watermark |
| `Catalog` | catalog.dfy | `get_stock_list`, `get_fund_list`, `get_index_list`, `get_major_indices`, `get_asset_list_date` |
| `Retrieval` | retrieval.dfy | `_retry_call`, `download_minutes_batch`, the daily and minute downloads of each asset class |
| `Persist` | persist.dfy | `_get_data_format_by_type`, `get_data_file_path`, `save_data_to_file` |
| `Sync` | sync.dfy | the `Archive` class: `download_single_*`, `download_all_*`, the list downloads |
| `Cli` | cli.dfy | `check_config_file`, `apply_date_args_to_config`, `download_by_config`, `download_all`, `fill_missing_minutes` |
| `Report` | report.dfy | `format_date`, `check_basic_status`, `check_metadata`, `analyze_completeness`, `generate_recommendations` |

Representation choices:

- **Outside world as parameters.** The remote service is a function from (request,
  attempt number) to either rows or an exception. Today's date is a parameter. The
  reference catalogs are values.
- **Stored state as maps.** Files are a map from path to stored table; ledgers are a
  map from (asset, frequency) to ledger rows. They live in the `Sync.Archive` class,
  whose methods update them in place as the downloader objects do.
- **Dates.** Dates stay text where the source keeps them as text, so string
  comparison is modelled as Python's. `Calendar` proves that for valid `YYYYMMDD`
  text, string order is date order.

Two behaviours of the code worth noting:

- When merging fails because the existing file cannot be read, the new rows are
  written unsorted (data_downloader.py:546-548).
- In custom mode, a block without a start date takes the global default as written,
  so an `auto` default stays the text `auto` (data_downloader.py:379-380). That step
  is then always skipped, because `'auto' >= '2…'` holds as text.

Where each source function is defined (the rows of the next section name the
members whose contracts state its properties):

| source function | Dafny definition | properties in |
|---|---|---|
| `get_config_for_asset` | `Settings.ConfigForAsset` | `Settings.ConfigForCustomBlock`, `ConfigForMissingBlock`, `ConfigForGlobalModes` |
| `calculate_download_range` | `Planner.DownloadRange` | the `Planner` lemmas |
| `get_stock_list` | `Catalog.StockList` | `Catalog.StockListCustom`, `StockListGlobal` |
| `get_fund_list` | `Catalog.FundList` | `Catalog.FundListCustom`, `FundTypeScreen` |
| `get_index_list` | `Catalog.IndexList` | `Catalog.IndexListSpec`, `IndexListHead` |
| `get_asset_list_date` | `Catalog.AssetListDate` | its own contract, `Catalog.AssetListDateFound` |
| `download_minutes_batch` | `Retrieval.MinutesSpec`, method `Retrieval.DownloadMinutesBatch` | `Retrieval.MinutesResultSpec` and the `MonthBatches` lemmas |
| `download_stock_daily`, `download_fund_daily`, `download_index_daily` | `Retrieval.DailySpec`, method `Retrieval.DownloadDaily` | `Retrieval.DailySpecFacts` |
| the ledger upsert in `download_single_*` | `Ledger.Upsert` | `Ledger.UpsertSpec` |
| the merge in `save_data_to_file` | `Tables.MergeRows` | `Tables.MergeRowsSpec`, `MergeRowsCount` |
| `save_data_to_file` | `Persist.SaveSpec`, method `Sync.Archive.SaveDataToFile` | the `Persist.Save*` lemmas |

## Model

| member | source | states |
|---|---|---|
| Calendar.NextIsSuccessor | data_downloader.py:447 | adding one day gives a valid later date with no valid date strictly in between |
| Calendar.FirstOfNextMonthFacts | data_downloader.py:201-207 | the first of the next month (December rolls to January of the next year) is valid and later, and the day before it is the last day of the month |
| Calendar.ParseFormat | data_downloader.py:167-168 | parsing the `%Y%m%d` text of a valid date gives that date back |
| Calendar.FormatParse | data_downloader.py:446-447 | text that parses as `%Y%m%d` is the formatting of the date it parses to |
| Calendar.FormatOrder | stock_downloader.py:195 | for valid dates, string order of their `YYYYMMDD` text is date order, and equal text means equal dates |
| Calendar.ShiftBackAndForth | data_downloader.py:451-454 | today minus `lookback_days` is no later than today and shifting it forward by as many days gives today back |
| Text.SortUniqueSpec | main.py:358 | `sorted(list(set))` is strictly increasing and holds exactly the elements of the input |
| Tables.DedupKeepLastSpec | data_downloader.py:252-254 | keep-last dedup keeps every key, each exactly once, as its last occurring row; the size is the number of distinct keys |
| Tables.SortRowsSpec | data_downloader.py:257-259 | the sort is a permutation and orders rows code ascending, key descending |
| Tables.SortedUniqueStrict | data_downloader.py:257-259 | in sorted rows with unique keys, an earlier row has a smaller code, or the same code and a larger key |
| Tables.LastRowOfConcat | data_downloader.py:516-525 | in existing-then-new rows, the last row of a key is the new one when the new rows hold the key, else the existing one |
| Tables.MergeRowsSpec | data_downloader.py:516-541 | the merge is sorted, holds every key of existing ∪ new exactly once, the new row wins a clash and the existing row survives otherwise |
| Tables.MergeRowsCount | data_downloader.py:516-541 | with unique inputs the merge has \|existing\| + \|new\| − collisions rows |
| Settings.AutoToday | data_downloader.py:399-405 | 'auto' becomes today's `YYYYMMDD` text; any other value is kept |
| Settings.ConfigName | data_downloader.py:362-368 | 'equities' is looked up as 'stocks'; other asset types as themselves |
| Settings.ConfigForCustomBlock | data_downloader.py:370-386 | in custom mode a block's own settings are kept; a missing or 'auto' end becomes today, a missing start the global default and a missing limit the global limit |
| Settings.ConfigForMissingBlock | data_downloader.py:387-395 | in custom mode without a block: enabled, daily only, global limit, global start as written, today as end |
| Settings.ConfigForGlobalModes | data_downloader.py:396-414 | in full and incremental mode: enabled, daily only, global limit, 'auto' dates resolved, lookback 1800 days by default |
| Settings.CustomStartAutoStaysAuto | data_downloader.py:379-380 | a custom block with no start date and an 'auto' global default gets the start text 'auto' |
| Planner.FullModeIgnoresLedger | data_downloader.py:421-429 | in full mode the range depends on neither ledger nor code and is the global start and end with 'auto' resolved |
| Planner.CustomModeUsesAssetDates | data_downloader.py:431-435 | in custom mode the range is the asset block's start and end, whatever the ledger holds |
| Planner.IncrementalResumesNextDay | data_downloader.py:437-447 | with a ledger row, the start is the day after its date, later than it as text and no later than any later date; the end is the global end |
| Planner.IncrementalUnparseableDate | data_downloader.py:444-447 | a ledger date that does not parse makes the planner raise |
| Planner.IncrementalFirstDownload | data_downloader.py:448-461 | without a ledger row the start is the global default, or today minus `lookback_days` when that is 'auto' |
| Planner.UpToDateIsSkipped | stock_downloader.py:193-197 | a code whose ledger date is the global end is skipped |
| Planner.OneDayBehindIsSkipped | stock_downloader.py:193-197 | a code one day behind the end gets start == end and is skipped, so a one-day range is never fetched |
| Planner.CustomAutoStartIsSkipped | stock_downloader.py:193-197 | a custom block whose start stays 'auto' is always skipped |
| Planner.ResumeExample | data_downloader.py:437-461 | a ledger date 20240628 with end 20240701 plans 20240629..20240701 |
| Ledger.ReadLedger | data_downloader.py:324-334 | a missing or unreadable ledger reads as no rows |
| Ledger.LastDateOf | data_downloader.py:439-444 | the date of the first ledger row for the code, none when there is no row |
| Ledger.Without | stock_downloader.py:230 | removing a code's rows keeps exactly the other rows |
| Ledger.UpsertSpec | stock_downloader.py:229-233 | after the upsert the code has exactly one row, the last, carrying the new date; every other code reads as before |
| Ledger.Watermark | stock_downloader.py:221-226 | the maximum `trade_date` for daily data; else the first 8 characters of some row's `trade_time` that are no smaller than those of any row, so the greatest 8-character prefix; else the end date |
| Ledger.MinuteWatermarkIsNotADate | stock_downloader.py:224 | for 'YYYY-MM-DD HH:MM:SS' times the watermark has 8 characters yet does not parse as a date |
| Ledger.MinuteWatermarkExample | stock_downloader.py:224 | 2024-06-28 15:00:00 gives the watermark '2024-06-' |
| Catalog.Limit | stock_downloader.py:89-98 | `head(limits)`: the first min(n, \|rows\|) rows for n > 0, all but the last \|n\| for n < 0, every row for no limit or 0 |
| Catalog.Filter | stock_downloader.py:46-81 | a screen keeps, in order, exactly the rows that pass it |
| Catalog.ScreenedLimitSpec | stock_downloader.py:46-91 | a chain of screens then a limit gives an order-preserving subsequence whose rows pass every screen, and it is the head, under the limit, of exactly the rows that pass every screen |
| Catalog.StockChainMeaning | stock_downloader.py:46-81 | a row passes the stock screens iff it is on a listed exchange and market, listed no later than `min_list_date`, not delisted before `delist_date` and free of 'ST' when asked |
| Catalog.StockListCustom | stock_downloader.py:37-91 | in custom mode the stock list is a subsequence of the catalog meeting every configured condition, empty when disabled; when enabled it is the head, under `limits`, of exactly the catalog rows meeting every condition |
| Catalog.StockListGlobal | stock_downloader.py:94-100 | outside custom mode the stock list is the first `limits` catalog rows |
| Catalog.StockMinListDateIsUpperBound | stock_downloader.py:62-66 | a row listed after `min_list_date` is never in the custom stock list |
| Catalog.ExchangePrefixes | fund_downloader.py:63-72 | SSE contributes prefix '5', SZSE prefix '1', nothing else |
| Catalog.ExchangeMask | fund_downloader.py:63-72 | the loop builds the union of prefixes over the configured exchanges and filters only when one was recognised |
| Catalog.FundTypeScreen | fund_downloader.py:29-39 | ETF/LOF keep the rows whose name contains it case-insensitively; any other type keeps all rows |
| Catalog.FundChain | fund_downloader.py:63-106 | the fund chain holds each configured screen: exchange prefixes, not delisted, listed by `min_list_date`, delist bound, management, category |
| Catalog.FundListCustom | fund_downloader.py:48-111 | in custom mode the fund list is empty when disabled or the type is not configured, raises on an unparsable `min_list_date`, else the head, under `limits`, of exactly the typed rows passing every screen |
| Catalog.FundMinListDateIsUpperBound | fund_downloader.py:82-85 | a fund listed after `min_list_date` is never listed |
| Catalog.IndexListSpec | index_downloader.py:21-100 | the index list is a subsequence of the catalog, of the given market, without expiry, passing the custom screens (the `min_list_date` screen on the date's integer text, also in a float column) and cut to the limit that applies |
| Catalog.IndexListHead | index_downloader.py:21-100 | without the configuration filter the list is every row of the market without expiry; otherwise it is the head, under the limit that applies, of exactly the rows passing the screens, where `min_list_date` is compared with the date's integer text |
| Catalog.IndexExpDateScreenIsRedundant | index_downloader.py:35-39 | once expired rows are dropped, the configured `exp_date` screen keeps every row |
| Catalog.MajorIndicesFacts | index_downloader.py:102-131 | the major index list has 18 distinct codes |
| Catalog.AssetListDate | data_downloader.py:622-678 | a returned date is 8 digits, and it is the integer text of the `list_date` cell of the first catalog row for the code in the asset type's file; unknown asset types give none |
| Catalog.AssetListDateFound | data_downloader.py:653-671 | conversely, when the first row for the code holds an 8-digit date, in a float column or any other, the lookup returns that date |
| Catalog.AssetListDateFloatExample | data_downloader.py:662-671 | in a float column, 19910715 rendered as '19910715.0' is still returned as '19910715' |
| Catalog.ListDateInt | data_downloader.py:667 | `str(int(x))` of a float cell drops the '.0' its text carries; a cell of any other column is kept |
| Catalog.IndexListedOnBoundPasses | index_downloader.py:67-73 | an index listed exactly on `min_list_date` passes the screen, whether the column is float or integer |
| Catalog.FirstWithCode | data_downloader.py:653-660 | the first catalog row with the code, none when there is none |
| Retrieval.RetryOutcomeSpec | data_downloader.py:132-146 | the call returns the first attempt's rows that do not raise, raises iff all `retry` attempts raise, and returns nothing when `retry` <= 0 |
| Retrieval.RetryCall | data_downloader.py:132-146 | the retry loop makes at most `retry` attempts, every one when it raises, and returns the first success |
| Retrieval.BatchHead | data_downloader.py:199-207 | a batch starts at the cursor and ends at the earlier of month end and range end, inside one month, and the next batch starts the day after |
| Retrieval.MonthBatchesShape | data_downloader.py:196-240 | the batches are non-empty, the first starts at the start, the last ends at the end, each lies in one month and consecutive ones are contiguous |
| Retrieval.MonthBatchesOrdered | data_downloader.py:196-240 | every batch ends before any later batch begins |
| Retrieval.MonthBatchesCover | data_downloader.py:196-240 | every day of the range falls in some batch |
| Retrieval.MonthBatchesDisjoint | data_downloader.py:196-240 | no day falls in two batches |
| Retrieval.MonthBatchesInside | data_downloader.py:196-240 | every day of every batch lies in the range |
| Retrieval.MonthBatchesCount | data_downloader.py:196-240 | there is one batch per calendar month touched |
| Retrieval.MonthBatchesExample | data_downloader.py:196-240 | 2024-01-15..2024-03-10 splits into 01-15..01-31, 02-01..02-29, 03-01..03-10 |
| Retrieval.BatchCalls | data_downloader.py:210-223 | one request per batch, in order, with 09:00:00 and 19:00:00 session bounds |
| Retrieval.CollectedSpec | data_downloader.py:215-233 | a table is collected iff some batch returned it with rows; a batch that raises is skipped and the rest are still fetched |
| Retrieval.MinuteRange | data_downloader.py:165-186 | the range exists iff both dates parse, start <= end, and a valid 8-digit listing date is no later than the end; the start is raised to the listing date |
| Retrieval.CollectBatches | data_downloader.py:192-240 | the loop makes exactly the batch requests and collects exactly the non-empty results in batch order; December 9999 raises |
| Retrieval.DownloadMinutesBatch | data_downloader.py:148-273 | the result is the modelled combined table; no request is made when the range is empty or the listing date is after the end |
| Retrieval.MinutesResultSpec | data_downloader.py:242-266 | a minute result is sorted, has unique (code, time) keys, holds every key fetched and keeps the last fetched row of each |
| Retrieval.MinutesNothingReturned | data_downloader.py:267-269 | when no batch returns rows the result is empty |
| Retrieval.DownloadDaily | stock_downloader.py:104-149 | the daily download is the modelled daily table |
| Retrieval.DailySpecFacts | stock_downloader.py:104-149 | daily rows are the daily call's rows; a failing adjustment call empties stock and fund data; index data is the daily call's rows |
| Retrieval.ServiceFrequencyFacts | stock_downloader.py:155-163 | minute_1/5/15/30/60 map to 1min/5min/15min/30min/60min, anything else to 1min |
| Retrieval.Fetch | stock_downloader.py:200-203 | daily goes to the daily download, any other frequency to the minute batches at the mapped frequency |
| Persist.Normalize | data_downloader.py:569 | backslashes become slashes and nothing else changes |
| Persist.FormatRules | data_downloader.py:560-584 | '/daily/' and '/reference/' paths are CSV; a Parquet path contains '/minute_' |
| Persist.SaveTargetOfDataFile | data_downloader.py:604-620 | a data file path is `<base>/<code>` plus the format's extension, and saving writes to it |
| Persist.WithSuffixRenames | data_downloader.py:480-483 | re-suffixing `<base>/<code><ext>` replaces only the extension |
| Persist.AppendChosen | data_downloader.py:486-493 | without an explicit choice, merging is chosen iff the mode is incremental |
| Persist.SaveFrame | data_downloader.py:473-474 | empty data writes nothing; otherwise only the save target changes |
| Persist.SaveOverwrite | data_downloader.py:549-557 | an overwrite stores a permutation of the new rows, sorted when keyed |
| Persist.SaveMerge | data_downloader.py:495-544 | a merge stores each key of old ∪ new once, sorted, new row winning, with \|old\| + \|new\| − collisions rows |
| Persist.SaveAppendOrFallback | data_downloader.py:546-548 | an unreadable existing file is replaced by the new rows unsorted; keyless tables are concatenated |
| Persist.SaveMergeRepeat | data_downloader.py:495-544 | merging the same rows twice keeps the same keys, unique and sorted, and no more rows |
| Sync.Archive.UpdateSyncInfo | data_downloader.py:336-339 | the ledger of the asset and frequency is replaced, nothing else |
| Sync.Archive.SaveDataToFile | data_downloader.py:465-557 | the files become the save of the data, the ledgers are unchanged |
| Sync.Archive.SyncFrequency | stock_downloader.py:190-240 | one frequency: plan, skip when start >= end, fetch, save and upsert only when rows came back; the new state is the step's |
| Sync.StepFrame | stock_downloader.py:205-236 | a step that saves nothing changes nothing; a step changes no other ledger and no other file |
| Sync.StepRecordsWatermark | stock_downloader.py:218-233 | after a saved step the code has exactly one ledger row carrying the watermark, and its data file is stored |
| Sync.StepKeepsOtherCodes | stock_downloader.py:229-233 | a step never changes another code's ledger date |
| Sync.StepResumesAfterWatermark | stock_downloader.py:221-233 | after a daily save in incremental mode the next plan starts the day after the watermark, after every saved date |
| Sync.StepUpToDateAfterEnd | stock_downloader.py:193-197 | once the watermark reaches the end, the next run of the step is skipped and repeating it changes nothing |
| Sync.PlanStepSaved | stock_downloader.py:205 | a saved step carries rows; in incremental mode its end is the global end |
| Sync.Archive.DownloadSingle | stock_downloader.py:181-240 | the frequencies run in order; the state is their composition |
| Sync.StepsKeepOtherCodes | fund_downloader.py:210-261 | a code's frequencies never change another code's ledger dates |
| Sync.Archive.DownloadCodes | stock_downloader.py:273-286 | every code is visited once, in order |
| Sync.CodesKeepOtherCodes | stock_downloader.py:273-286 | codes not visited keep their ledger dates |
| Sync.NamedCodesSpec | stock_downloader.py:273-286 | the bulk row loop downloads, in order, the code of every row with a name and no other code; with every name present, every code of the list |
| Sync.Archive.DownloadNamedRows | index_downloader.py:279-290 | the row loop's visited codes are those of the named rows, and the state is their downloads composed in order |
| Sync.Archive.DownloadAllStocks | stock_downloader.py:242-286 | visits, in order, the codes of the stock plan's rows that have a name; a row with an empty name raises in the progress label and is skipped |
| Sync.StocksPlanSpec | stock_downloader.py:242-266 | the stock plan is empty when disabled, else the head of the stock list under the caller's limit, else the config limit |
| Sync.Archive.DownloadAllFunds | fund_downloader.py:263-353 | visits the codes of the ETF or LOF plan; a fund-list error leaves the state unchanged |
| Sync.FundsPlanSpec | fund_downloader.py:263-291 | the fund plan is a subsequence of the fund list, empty when disabled or the type is not configured (ETF and LOF by default), else the head of the fund list under the caller's limit, else the config limit |
| Sync.Archive.DownloadAllIndices | index_downloader.py:243-290 | visits, in order, the codes of the index plan's rows that have a name; a row with an empty name raises in the progress label and is skipped |
| Sync.IndicesPlanSpec | index_downloader.py:243-270 | the index plan is empty when disabled, else the head of the index list under the caller's limit, else the config limit, and defaults to daily bars |
| Sync.Archive.DownloadMajorIndices | index_downloader.py:294-327 | visits the 18 major indices |
| Sync.MajorPlanSpec | index_downloader.py:294-317 | the major plan is the fixed list unless the configuration disables indices |
| Sync.Archive.DownloadList | stock_downloader.py:290-307 | a given stock or fund list is visited in order |
| Sync.Archive.DownloadIndexList | index_downloader.py:331-351 | a given index list is visited in order, daily by default |
| Cli.CheckConfigFile | main.py:202-250 | the configuration is accepted iff it exists, parses and has a token other than the placeholder |
| Cli.ApplyDateArgsSpec | main.py:253-296 | no date argument or an unreadable file keeps the original; otherwise full mode with the given dates, other settings kept, and the planner then returns exactly those dates |
| Cli.ByConfigIndexStrategy | main.py:109-128 | in custom mode the indices block's `major_only` (default true) picks major or all indices with the block's limit; otherwise all indices with the global limit |
| Cli.AllJobs | main.py:132-150 | indices, ETFs and stocks without config filters; the stock limit is `limit or 100` |
| Cli.StemOfDataFile | main.py:326-329 | the stem of `<code>.parquet` is the code |
| Cli.CollectStems | main.py:326-329 | the loop collects exactly the stems of the listed files |
| Cli.Absent | main.py:331-332 | the catalog codes with no downloaded file |
| Cli.MissingListSpec | main.py:331-358 | the missing list is strictly increasing and holds exactly the missing codes |
| Cli.DownloadInBatches | main.py:361-387 | ⌈n/100⌉ batches of 100 download every missing code once, in sorted order; successes plus errors is n |
| Cli.FillMissingMinutes | main.py:299-387 | without a catalog nothing happens; otherwise the missing codes are downloaded at minute_1 in sorted batches |
| Cli.CodesSpecAppend | main.py:369-379 | downloading one slice after another equals downloading their concatenation |
| Report.FormatDate | minute_data_report.py:13-18 | 8 characters get dashes after the year and month and removing them gives the input back; other text is unchanged |
| Report.FormatDateOfYmd | minute_data_report.py:13-18 | a `YYYYMMDD` ledger date is shown as its ISO date |
| Report.FormatDateOfMinuteWatermark | minute_data_report.py:13-18 | the minute watermark '2024-06-' is shown as '2024--0-6-' |
| Report.CheckBasicStatus | minute_data_report.py:20-70 | no catalog reports nothing; otherwise the missing codes, and the first min(20, n) of them in sorted order |
| Report.Abnormal | minute_data_report.py:176-184 | a row is abnormal iff its `last_date` does not have 8 characters |
| Report.AbnormalMissesMinuteWatermark | minute_data_report.py:176-184 | a minute watermark is not flagged, though it names no date |
| Report.MostCommon | minute_data_report.py:221-232 | none for no rows; otherwise a date that occurs and occurs at least as often as any other |
| Report.Differing | minute_data_report.py:238 | exactly the rows whose date differs |
| Report.OutdatedSpec | minute_data_report.py:221-238 | outdated rows are exactly those off the most common date; no other reference date flags fewer; none iff all dates agree |
| Report.GenerateRecommendations | minute_data_report.py:278-306 | three lines per issue, missing first; none iff no missing codes and no outdated rows |

## Left out

- I/O is not modelled: CSV/Parquet reading and writing, `mkdir`, logging, `time.sleep`, tqdm progress bars and printing. Files are a map from path to table; a file that cannot be read is an `Unreadable` entry.
- The Tushare client is not modelled (`_setup_tushare`, `update_reference_data`, update_reference.py). The service is a function from request and attempt number to rows or an exception.
- `datetime.now()` is the `today` parameter.
- `pd.to_datetime` on arbitrary text is not modelled. Only exact `%Y%m%d` text parses, in years 1..9999. Pandas accepts more forms and only years 1677..2262. A ledger date that does not parse makes the planner raise, which the step treats as a failure.
- Adjusted prices (`adj_factor`, `fillna(1.0)`, the `adj_*` columns) use floating-point arithmetic and are not modelled. The daily download keeps its rows and models only the adjustment call's success or failure.
- Retrieval.DailySpec: an index daily call that returns `None` is treated as empty data.
- Catalog.IndexList: a `list_date` column holding non-numeric text makes `astype(int)` raise in `get_index_list`; the model compares that text as it is.
- Tables: a table has one key column, `trade_date`, `trade_time` or none. Mixed column sets, other columns and `astype(str)` are not modelled; keys are already text.
- Tables.SortRows: an insertion sort; pandas' sort stability among equal keys is not modelled.
- Persist.Normalize: path normalisation by pathlib beyond backslash replacement is not modelled.
- Sync.Archive: data files and ledgers are kept in separate maps, so a ledger path can never collide with a data path.
- Cli.FillMissingMinutes: the directory listing of `data/data/equities/minute_1/*.parquet` is the `names` parameter. The hard-coded `data/...` paths stay relative to the working directory.
- Cli.DownloadInBatches: `download_stock_list` catches every per-code exception, so a batch never raises. `error_count` is therefore always 0.
- Cli.ByConfigJobs and Cli.AllJobs: the jobs dispatched are a list of values; running them is `Sync.Archive`'s business. `update_all_reference_data` is not modelled.
- Catalog.FundList: the fund catalog's `delist_date` column is assumed present; a catalog without it would raise in `exclude_delisted`.
- Catalog.FundList: the `name` setting is a list of fund types. A string value, which Python would test by substring, is not modelled.
- Report.MostCommon: on a tie it takes the date that occurs first. The order pandas' `value_counts` gives tied dates is not modelled.
- Report: completion percentages, the median record threshold, `analyze_time_ranges` and the exchange breakdown are float arithmetic or printing only, and are not modelled.
- `get_trading_dates` (data_downloader.py:341-354) is unused by the engine and is not part of this model.
- The `main` function of data_downloader.py (lines 680-739) calls functions that do not exist and cannot run; it is not part of this model.
- interactive_menu.py, start.py, check_status.py, analyze_minute_data.py, final_analysis.py, download_missing_stocks.py and the argument parsing in main.py (`parse_arguments`, `main`) are not part of this model.
- Retrieval.CollectBatches: in December 9999 the month step raises and the whole minute download returns an empty table. The batches fetched before that point are not modelled.
