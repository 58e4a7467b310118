# OPERA SDS operations scripts: duplicate and accountability bookkeeping

This project models the in-memory bookkeeping of the OPERA SDS operations
scripts in Dafny and proves what it computes. The scripts work on granule
identifiers listed by the CMR search service: they group identifiers by a
product's unique fields, keep the newest of each group, count per date or
month, reconcile DSWx-HLS outputs against their HLS inputs, and format
prefixes, durations and file names.

The network, the file system and the clock are not modelled. What the scripts
read from them becomes a parameter:
- a CMR answer is a list of pages;
- a response's status code is an integer;
- the current day is a day number.

Regular expressions become hand-written recognizers of the fixed identifier
shapes (module `Identifiers`). Timestamps are integer microseconds on the
proleptic Gregorian calendar (module `Calendar`). Strings compare
lexicographically by code point (`Base.LexLt`), as Python's `<` does.

Modules:
- `Base`: options and results, characters and strings, Python's stable `sorted` with a key, sums.
- `Calendar`: dates, day numbers, compact and ISO timestamps, `fromisoformat`.
- `Identifiers`: a prefix matcher for the product patterns, and the removal of HLS band suffixes.
- `Duplicates`: `detect_duplicates` of the opera-audit package.
- `Accountability`: `analyze_accountability` and the cached Landsat-9 cutoff.
- `CmrIntegration`: the two oracles of the integration test, and their agreement with the package.
- `DuplicateCheck`: the stand-alone `duplicate_check.py`.
- `HlsPrefix`: `hls_to_s3_prefix.py`, the DSWx-HLS product prefix of an HLS identifier and the product directories under it.
- `DswxHlsMap`: `duplicates/dswx-hls/dswx-hls-input-map.py`, the HLS-to-DSWx mapping report.
- `AuditDswx`: `audit_dswx/audit_dswx_inputs.py`, the DSWx-S1 audit of track mixing and acquisition-time span among each granule's RTC inputs.
- `FindGranules`: `find_granules.py`, the S3 prefix of an input granule and the sorting of a list of granules into found and missing lists.
- `Cron`: `duplicates/duplicate_and_accountability_cron.py`, the search window, the flattening of each product's duplicate report, the plot-data time series, the days of the count plots and the DSWx-HLS accountability file names.
- `SummaryReport`: `metrics_report_generation/generate_unified_summary_report.py`, the duration text, the histogram and report file names, the coverage read from the report file names, and the choice of plotted statistic, ticks and marker.
- `CmnSendManual`: `cmn_send_manual.py`, the user rule that sends CMR notifications for a dataset type, the query narrowed to one product, the job name and the submission counters.
- `ProcessHlsEvents`: `process_hls_events/process_hls_from_cmr.py`, the revision events of HLS granules gathered per granule and the delays from the initial revision to each later one.
- `SlcBursts`: `slc_granules_to_bursts.py`, the bursts of each SLC granule and the granules without the full 27 bursts.
- `UniqueSafeIds`: `missing_rtc_static_layers/unique_safe_ids.py`, the distinct SAFE file ids of the burst export files, sorted.
- `CsvToGeojson`: `missing_rtc_static_layers/csv_to_geojson.py`, the burst lines of a CSV file turned into map features with a footprint, its fields and a marker colour, and the malformed lines reported.
- `HlsByTile`: `get_hls_granule_by_tile.py`, the CMR query for the HLS granules of an MGRS tile and a range of days, and the page loop that collects the first page's number of hits.
- `MgrsTiles`: `mgrs_tile_to_safe_archive/mgrs_tile_to_safe_archive.py`, the flattening of search replies, the UTM zone and EPSG code of an MGRS tile, and the loops that search each tile for each Sentinel-1 platform and collect records and map features.
- `BurstToSafe`: `missing_rtc_static_layers/opera_rtc_burst_to_input_safe.py`, the burst ids of a list matched against the burst-id pattern, the grid key and relative orbit taken from them, and the search with up to three attempts whose granules become CSV lines, for the ids within a window of positions.
- `StaticLayers`: `static_layers/StaticLayersValidator.py`, the static-layer bursts listed in a CSV file against the static-layer granules in CMR: duplicate and missing bursts and the missing frames.

## Model

| member | source | states |
|---|---|---|
| Duplicates.GroupKey | opera-audit/src/opera_accountability/duplicates.py:68 | the key is the tuple of the unique fields' values, in order; a field the match lacks is a `KeyError` naming that field |
| Duplicates.AggDate | opera-audit/src/opera_accountability/duplicates.py:71-72 | a missing aggregation field is a `KeyError` naming it, a value `strptime` rejects a `ValueError` carrying it, and otherwise the date is the ISO date of the parsed value, which is its first eight characters with dashes after the year and the month |
| Duplicates.DetectDuplicates | opera-audit/src/opera_accountability/duplicates.py:14-127 | the loop over the identifiers, then the sorted report, computes the fold `Detect` |
| Duplicates.Visit | opera-audit/src/opera_accountability/duplicates.py:58-103 | one iteration on the loop's state equals one step of the fold: unmatched skipped, a new key kept, a repeat displacing the older record |
| Duplicates.Record | opera-audit/src/opera_accountability/duplicates.py:75-103 | the update of the date's counters and of the kept and displaced identifiers for one matched identifier computes the fold step `Place` |
| Duplicates.ScanFaithful | opera-audit/src/opera_accountability/duplicates.py:58-103 | after any prefix, the kept map holds one newest record per key seen, displaced + kept is every matched identifier, and each date's total is unique + duplicates |
| Duplicates.ScanDates | opera-audit/src/opera_accountability/duplicates.py:75-103 | after any prefix of the loop, each date's counters are the number of identifiers filed under it and the number of those with a first-seen key, and the dates are exactly those filed |
| Duplicates.FiledAt | opera-audit/src/opera_accountability/duplicates.py:58-72 | the filed date of each identifier is its aggregation date when it matches the pattern and has a key, and none otherwise |
| Duplicates.DetectReport | opera-audit/src/opera_accountability/duplicates.py:49-127 | `total` is every input, `unique` the distinct keys, unique + duplicates == matched, `duplicate_list` sorted and exactly the matched identifiers that are not their key's newest |
| Duplicates.DetectByDate | opera-audit/src/opera_accountability/duplicates.py:75-106 | `by_date` is in strictly ascending date order and each date has total == unique + duplicates with total at least 1 |
| Duplicates.DetectDateCounts | opera-audit/src/opera_accountability/duplicates.py:71-106 | `by_date` has a row for a date iff some matched identifier aggregates to it; its `total` is the number of those identifiers and its `unique` the number of them whose group key had not been seen before |
| Duplicates.NewestIsLatest | opera-audit/src/opera_accountability/duplicates.py:85-95 | the survivor's creation timestamp is at least every other of its key, and every earlier record of the key is strictly older (a tie keeps the existing one) |
| Duplicates.UntrackedKeepsFirst | opera-audit/src/opera_accountability/duplicates.py:97-101 | without a creation field the first record of a key survives |
| Duplicates.TwoVersions | opera-audit/tests/test_duplicates.py:47-75 | two records of one key: unique 1, duplicates 1, and the older one (the second on a tie) listed |
| Duplicates.NoGranules | opera-audit/tests/test_duplicates.py:7-15 | no input gives zero counts, an empty list and no dates |
| Accountability.CutoffOf | opera-audit/src/opera_accountability/accountability.py:18-27 | the cutoff exists exactly when the text with every `Z` removed parses with `fromisoformat` |
| Accountability.Accountant.ParseCutoff | opera-audit/src/opera_accountability/accountability.py:18-27 | the global cutoff is set to the parsed instant, or left as it was when parsing fails |
| Accountability.Accountant.AnalyzeAccountability | opera-audit/src/opera_accountability/accountability.py:30-123 | parses the cutoff once and caches it, then computes `Analyze` |
| Accountability.MapInputs | opera-audit/src/opera_accountability/accountability.py:65-81 | the loop over outputs and their input files computes the fold `MapOutputs` |
| Accountability.FilterHls | opera-audit/src/opera_accountability/accountability.py:87-105 | the loop over HLS granules computes the fold `Filter` (Landsat-9 drop, then an empty entry for an unmapped id) |
| Accountability.ReconcileAll | opera-audit/src/opera_accountability/accountability.py:65-123 | both loops and the missing list compute `Reconcile` |
| Accountability.MapOutputsKeys | opera-audit/src/opera_accountability/accountability.py:74-81 | an id is a key of the input map iff some output lists a file that normalises to it and it matches the HLS pattern |
| Accountability.FilterSucceeds | opera-audit/src/opera_accountability/accountability.py:89-92 | the HLS loop fails exactly when some granule's acquisition time does not parse |
| Accountability.MissingMeans | opera-audit/src/opera_accountability/accountability.py:101-121 | `missing` is strictly sorted, an id is missing iff the loop kept it and no output names it, and expected == actual + missing_count |
| Accountability.MissingBound | opera-audit/src/opera_accountability/accountability.py:110-121 | `actual` is never negative and missing_count is at most the number of distinct kept ids |
| Accountability.NonHlsIgnored | opera-audit/src/opera_accountability/accountability.py:80-81 | removing the input names that do not match the HLS pattern changes nothing |
| Accountability.DroppedIff | opera-audit/src/opera_accountability/accountability.py:94-99 | a granule is dropped iff it is a Landsat-9 granule acquired strictly before the cutoff; other platforms are never dropped |
| Accountability.OneMore | opera-audit/src/opera_accountability/accountability.py:97-117 | a dropped granule changes nothing, a kept one raises `expected` by one |
| Accountability.NoGranules | opera-audit/src/opera_accountability/accountability.py:117-123 | no outputs and no HLS granules give zero expected, zero actual, nothing missing |
| Identifiers.MatchNames | opera-audit/src/opera_accountability/duplicates.py:59-65 | a successful match defines exactly the groups the pattern names |
| Identifiers.BandFilesCollapse | opera-audit/src/opera_accountability/accountability.py:62-77 | `dir/X.Bxy.tif` and `dir/X.Fmask.tif` normalise to `X` |
| CmrIntegration.AnalyzeDuplicatesFromCmr | opera-audit/tests/test_cmr_integration.py:134-182 | the oracle's loops compute the fold `Oracle`: groups in first-seen order, all but the last of each ascending sort as duplicates |
| CmrIntegration.GroupsPartition | opera-audit/tests/test_cmr_integration.py:150-166 | the oracle's groups partition the matched identifiers by key |
| CmrIntegration.OracleCountsAgree | opera-audit/tests/test_cmr_integration.py:177-182 | for every input the detector accepts, the oracle's total, unique and duplicate counts equal the detector's |
| CmrIntegration.OracleListAgrees | opera-audit/tests/test_cmr_integration.py:168-175 | with distinct creation timestamps within each key, the oracle's duplicate list equals the detector's |
| CmrIntegration.TieSplits | opera-audit/tests/test_cmr_integration.py:173-175 | on a creation tie the detector lists the second record and the oracle the first |
| CmrIntegration.AnalyzeAccountabilityFromCmr | opera-audit/tests/test_cmr_integration.py:185-255 | the oracle computes exactly what `analyze_accountability` computes on the S30 list followed by the L30 list |
| DuplicateCheck.Products | duplicates/duplicate_check.py:27-177 | the table defines exactly the nine product names |
| DuplicateCheck.BoundText | duplicates/duplicate_check.py:217-218 | a bound renders without a comma, and as the empty text exactly when absent |
| DuplicateCheck.QueryRange | duplicates/duplicate_check.py:212-224 | the range parameter is present iff a bound is given, is named `temporal[]` or `revision_date[]`, and splits at its comma into the two bounds |
| DuplicateCheck.RetriedStatuses | duplicates/duplicate_check.py:180-181 | only 401, 418, 429, 500, 502, 503 and 504 are retried; these lie in 400..599 and every 2xx status gives up |
| DuplicateCheck.GetGranuleIds | duplicates/duplicate_check.py:209-240 | computes `Fetch`: the first granule of the first page must match the pattern, then every page is read until one carries no search-after token |
| DuplicateCheck.FetchedAll | duplicates/duplicate_check.py:226-240 | when only the last page lacks a token, the listing is every page's identifiers in order |
| DuplicateCheck.FetchIgnoresLater | duplicates/duplicate_check.py:233-236 | pages after the first without a token are never read |
| DuplicateCheck.Visit | duplicates/duplicate_check.py:269-302 | one iteration on the loop's state equals one step of the fold `Run` |
| DuplicateCheck.Tick | duplicates/duplicate_check.py:281-302 | the update of the month's row and of the first-seen map for one granule computes the fold step `Next` |
| DuplicateCheck.CheckDuplicates | duplicates/duplicate_check.py:243-354 | `main` computes `Check`: a listing failure, nothing for an empty listing, a loop failure, or the report |
| DuplicateCheck.RunInv | duplicates/duplicate_check.py:266-302 | after any prefix, each month's counts and lists are those of the granules seen, and the month sums add up to the granules and the duplicates |
| DuplicateCheck.RunOk | duplicates/duplicate_check.py:269-290 | the loop fails exactly when some granule lacks a key or a month |
| DuplicateCheck.UnparsedAborts | duplicates/duplicate_check.py:270-273 | a granule the pattern does not match stops the run with `RuntimeError` on its identifier |
| DuplicateCheck.ReportTotals | duplicates/duplicate_check.py:289-323 | `n_granules` is every granule, `n_duplicates` is the granules minus the distinct keys, and the month rows' granules add up to the total |
| DuplicateCheck.ReportMonths | duplicates/duplicate_check.py:277-321 | the months are strictly ascending, a month appears iff it has a granule, and each row has 1 <= n_granules and n_duplicates <= n_granules |
| DuplicateCheck.ReportGroups | duplicates/duplicate_check.py:296-315 | an entry lists the key's first granule and its later repeats in that month; ranked, `latest_product` is the first with the greatest creation timestamp and `duplicate_products` holds the rest |
| DuplicateCheck.ReportGroupKeys | duplicates/duplicate_check.py:296-300 | a month has one entry per key repeated in it, without repeats |
| DuplicateCheck.RankSpec | duplicates/duplicate_check.py:305-315 | the descending stable sort puts the first maximum first and keeps every identifier |
| DuplicateCheck.ReportCounts | duplicates/duplicate_check.py:325-350 | the corrected counts add up to `n_duplicates`, each is at least 1, and min and max exist iff there are duplicates |
| DuplicateCheck.CountsAsWrittenOverstate | duplicates/duplicate_check.py:329-331 | without a creation group each count as written is one more than the duplicates of its entry |
| DuplicateCheck.CountsAsWrittenExample | duplicates/duplicate_check.py:329-331 | one key listed twice: one duplicate, counted as written as 2 |
| DuplicateCheck.DuplicateReport | duplicates/duplicate_check.py:266-350 | for every run that succeeds, the report's totals, month order and counts as above |
| HlsPrefix.DayOfInYear | hls_to_s3_prefix.py:20 | a day of year from 1 to the year's length lands in that year with that day of year |
| HlsPrefix.DaySixty | hls_to_s3_prefix.py:20 | day 60 is February 29th in a leap year and March 1st otherwise |
| HlsPrefix.DayZero | hls_to_s3_prefix.py:20 | day 0 steps back to December 31st of the previous year |
| HlsPrefix.YearZero | hls_to_s3_prefix.py:20 | year 0 raises, as `datetime(0, 1, 1)` does |
| HlsPrefix.January | hls_to_s3_prefix.py:20 | days 1 to 31 are the January days of the same number |
| HlsPrefix.FormatPrefixOf | hls_to_s3_prefix.py:9-24 | for an identifier laid out as `HLS.<p>.<tile>.<YYYYDDD><Thhmmss>...` the prefix is `products/OPERA_L3_DSWx-HLS_<tile>_<YYYYMMDD><Thhmmss>Z_` with the calendar date of that day of year, or the overflow error |
| HlsPrefix.ShortIdentifier | hls_to_s3_prefix.py:14-16 | an identifier of at most 15 characters fails on the year's `int()` |
| HlsPrefix.CollectDirectories | hls_to_s3_prefix.py:42-44 | the loop over one listing computes `AddDirectories`: each key's second `/` field is added, a key without one raises |
| HlsPrefix.CollectProducts | hls_to_s3_prefix.py:36-44 | the loop over the file's lines computes `Products`, stopping at the first error |
| HlsPrefix.ProductsStopped | hls_to_s3_prefix.py:39-44 | once a line raises, no later line changes the outcome |
| HlsPrefix.AddDirectoriesAre | hls_to_s3_prefix.py:42-44 | without an error, the set is the old one plus exactly the directories of the listed keys |
| HlsPrefix.PrintedOnce | hls_to_s3_prefix.py:46-47 | one printed line per directory, no two alike |
| DswxHlsMap.FacetDay | duplicates/dswx-hls/dswx-hls-input-map.py:39-40 | the part of a facet date before `/`, stripped, is the ISO calendar date |
| DswxHlsMap.FacetMonth | duplicates/dswx-hls/dswx-hls-input-map.py:339 | `strptime` then `strftime('%Y-%m')` of a facet date's day part gives its year and month |
| DswxHlsMap.FacetInjective | duplicates/dswx-hls/dswx-hls-input-map.py:39-40 | two days with the same facet text are the same day, so keying by the text is keying by the day |
| DswxHlsMap.FatalCodeAgrees | duplicates/dswx-hls/dswx-hls-input-map.py:43-46 | a request error without a response and any other error are retried; with a response the give-up rule is the duplicate checker's status list |
| DswxHlsMap.MapOutputs | duplicates/dswx-hls/dswx-hls-input-map.py:246-264 | the loop over the outputs and their inputs computes `MapAll`, raising on the first output without an HLS input |
| DswxHlsMap.CollectNamed | duplicates/dswx-hls/dswx-hls-input-map.py:249-256 | the collected list holds each HLS key the output names exactly once |
| DswxHlsMap.AppendAllSpec | duplicates/dswx-hls/dswx-hls-input-map.py:263-264 | `setdefault(k, []).append(gid)` for distinct keys: new keys at the end, each named key's list gains `gid`, the rest unchanged |
| DswxHlsMap.MapAllSpec | duplicates/dswx-hls/dswx-hls-input-map.py:246-264 | a key is present iff some output names it, and its list is the outputs naming it, in output order |
| DswxHlsMap.MappedKeys | duplicates/dswx-hls/dswx-hls-input-map.py:246-266 | the keys are exactly the HLS keys some output names, each with a non-empty list |
| DswxHlsMap.MapAllFails | duplicates/dswx-hls/dswx-hls-input-map.py:258-259 | the loop raises iff some output names no HLS file, naming the first such output |
| DswxHlsMap.KeptSpec | duplicates/dswx-hls/dswx-hls-input-map.py:303-307 | a granule survives the Landsat-9 filter iff it is an HLS-L granule without the `LANDSAT-9` platform |
| DswxHlsMap.KeepLoop | duplicates/dswx-hls/dswx-hls-input-map.py:303-307 | the Landsat-9 filter computes `Kept` |
| DswxHlsMap.AddUnmapped | duplicates/dswx-hls/dswx-hls-input-map.py:301-312 | the filter and the loop over the HLS granules compute `TouchAll` over the HLS-S granules and the kept HLS-L granules |
| DswxHlsMap.TouchAllSpec | duplicates/dswx-hls/dswx-hls-input-map.py:309-312 | the granule loop only appends keys not yet present, each with an empty list, and keeps the existing keys, order and lists |
| DswxHlsMap.MappingSpec | duplicates/dswx-hls/dswx-hls-input-map.py:246-312 | a key of the final mapping is named by an output, or is an HLS-S granule, or an HLS-L granule not flown by Landsat-9; its list is exactly the outputs naming it |
| DswxHlsMap.UnmappedAtEnd | duplicates/dswx-hls/dswx-hls-input-map.py:309-314 | the keys with an empty list are exactly those after the first `n_dswx_hls_inputs` |
| DswxHlsMap.GroupByDate | duplicates/dswx-hls/dswx-hls-input-map.py:316-326 | the grouping loop computes `DatesAll` and `HlsAll` |
| DswxHlsMap.GroupSpec | duplicates/dswx-hls/dswx-hls-input-map.py:321-325 | `date_map` has a date iff some key has it, and under it exactly the keys of that date with their lists |
| DswxHlsMap.ByHlsSpec | duplicates/dswx-hls/dswx-hls-input-map.py:326 | `hls_mappings` has each HLS identifier of a key, with the list of the last key of that identifier |
| DswxHlsMap.DayCountsTally | duplicates/dswx-hls/dswx-hls-input-map.py:332-337 | each per-date count is the sum over the date's lists of that count's tally |
| DswxHlsMap.CountByDate | duplicates/dswx-hls/dswx-hls-input-map.py:331-347 | the counting loop computes `CountAll` |
| DswxHlsMap.CountDay | duplicates/dswx-hls/dswx-hls-input-map.py:332-347 | one pass of the counting loop computes the step `CountStep`: the date's counts set, and the month's started or summed |
| DswxHlsMap.CountAllSpec | duplicates/dswx-hls/dswx-hls-input-map.py:331-347 | `date_counts` follows `date_map`'s dates with each date's counts; `month_counts` has a month iff a date falls in it, each of its four counts is the sum of that count over the month's dates, and its totals equal the dates' totals |
| DswxHlsMap.OverallSpec | duplicates/dswx-hls/dswx-hls-input-map.py:331-354 | each overall count, and each sum over the months, equals that count tallied over every list of `hls_to_dswx` |
| DswxHlsMap.ReportCounts | duplicates/dswx-hls/dswx-hls-input-map.py:314-354 | overall `hls_granules` is the number of keys, and `hls_to_no_dswx` the number the script logs as not mapped |
| DswxHlsMap.MissingSpec | duplicates/dswx-hls/dswx-hls-input-map.py:356 | `missing_dswx` lists, without repeats, exactly the identifiers whose list is empty |
| DswxHlsMap.FirstUnstamped | duplicates/dswx-hls/dswx-hls-input-map.py:362 | the sort raises on an identifier the DSWx pattern does not match, and only when there is one |
| DswxHlsMap.MissingAndDuplicates | duplicates/dswx-hls/dswx-hls-input-map.py:356-363 | the loops compute `MissingAll` and `DupsAll` |
| DswxHlsMap.MissingLoop | duplicates/dswx-hls/dswx-hls-input-map.py:356 | the comprehension collecting `missing_dswx` computes `MissingAll` |
| DswxHlsMap.DuplicatesLoop | duplicates/dswx-hls/dswx-hls-input-map.py:361-363 | the loop collecting the superseded outputs computes `DupsAll`, failing at the first identifier the sort cannot key |
| DswxHlsMap.SupersededSpec | duplicates/dswx-hls/dswx-hls-input-map.py:361-363 | sorted newest first, the kept output is the first with the latest creation time; the superseded ones are the others, none created later |
| DswxHlsMap.DupsFails | duplicates/dswx-hls/dswx-hls-input-map.py:361-363 | the duplicates loop raises iff a non-empty list holds an identifier the DSWx pattern does not match, and names one |
| DswxHlsMap.DupsSpec | duplicates/dswx-hls/dswx-hls-input-map.py:359-363 | the duplicates are the superseded outputs of each granule in order, `len - 1` per non-empty list |
| DswxHlsMap.TrimReport | duplicates/dswx-hls/dswx-hls-input-map.py:365-367 | the trimming loop computes `Trim` |
| DswxHlsMap.TrimSpec | duplicates/dswx-hls/dswx-hls-input-map.py:365-367 | without `--full-report` a granule stays under its date iff its list does not hold exactly one output; with it nothing changes; lists are kept as they were |
| DswxHlsMap.PlotNameSpec | duplicates/dswx-hls/dswx-hls-input-map.py:213-220 | the plot name shows the earliest and the latest day of the report (every day's ISO text lies between them), and a one-day report gets the one-day name |
| AuditDswx.BaseOf | audit_dswx/audit_dswx_inputs.py:63-65 | a match of the base pattern is a text that starts with `OPERA_L2_RTC-S1_T` |
| AuditDswx.TrackOf | audit_dswx/audit_dswx_inputs.py:51 | a track is found iff `RTC-S1_T`, three digits and `-` occur in the text, and it is the three digits of the leftmost occurrence |
| AuditDswx.TimeTokenOf | audit_dswx/audit_dswx_inputs.py:56 | the time group is the 16 characters between the underscores |
| AuditDswx.RtcNameIsBase | audit_dswx/audit_dswx_inputs.py:63-65 | a well-formed RTC identifier is its own base, and stays the base when a file suffix (empty or starting with a non-digit, such as `_HH.tif`) follows |
| AuditDswx.VariantsShareBase | audit_dswx/audit_dswx_inputs.py:59-65 | appending such a suffix to a base leaves the base found unchanged, so the variants of one product share one base |
| AuditDswx.MatchPieces | audit_dswx/audit_dswx_inputs.py:63-65 | concatenating pieces that each fit their pattern token, with a non-digit after every digit run, matches the whole pattern |
| AuditDswx.DedupeRtcInputs | audit_dswx/audit_dswx_inputs.py:230-258 | the loop sorting inputs into bases and leftovers, then the sorted result, computes `Dedupe` |
| AuditDswx.BasesSpec | audit_dswx/audit_dswx_inputs.py:245-250 | a text is a base iff some input's match has it, and an input is a leftover iff it has no match |
| AuditDswx.NoBaseKeepsInputs | audit_dswx/audit_dswx_inputs.py:252-253 | with no base found the result is the distinct inputs in ascending order |
| AuditDswx.DedupeMembers | audit_dswx/audit_dswx_inputs.py:245-257 | with some base, a name is in the result iff it is an input's base or `UNPARSED::` followed by an input without one |
| AuditDswx.DedupeOrder | audit_dswx/audit_dswx_inputs.py:255-257 | with some base, every untagged name precedes every tagged one and each part is strictly ascending |
| AuditDswx.DedupeDistinct | audit_dswx/audit_dswx_inputs.py:230-258 | the result never lists a name twice |
| AuditDswx.AnalyzeInputs | audit_dswx/audit_dswx_inputs.py:277-303 | the loop over the deduplicated names computes `Analyze`: tracks, times, sorted distinct notes joined with `; `, or the `ValueError` |
| AuditDswx.ScanFails | audit_dswx/audit_dswx_inputs.py:293-297 | `analyze_inputs` raises iff some name not tagged `UNPARSED::` has a time token that is not a valid date-time |
| AuditDswx.ScanTracks | audit_dswx/audit_dswx_inputs.py:285-291 | the tracks are exactly the track groups of the untagged names |
| AuditDswx.ScanTimes | audit_dswx/audit_dswx_inputs.py:293-297 | the times are exactly the acquisition times of the untagged names, at most one per name |
| AuditDswx.ScanNotes | audit_dswx/audit_dswx_inputs.py:280-299 | the notes are exactly the `UNPARSED` note (when a tagged name is present), a track note per name without a track and a time note per name without a time token |
| AuditDswx.AnalyzeSpec | audit_dswx/audit_dswx_inputs.py:261-303 | the returned tracks are strictly ascending and distinct, with the membership of `ScanTracks` and `ScanTimes`, and the call raises exactly as `ScanFails` says |
| AuditDswx.Earliest | audit_dswx/audit_dswx_inputs.py:478 | `min(times)` is one of the times and no later than any |
| AuditDswx.Latest | audit_dswx/audit_dswx_inputs.py:479 | `max(times)` is one of the times and no earlier than any |
| AuditDswx.Judge | audit_dswx/audit_dswx_inputs.py:469-503 | a failing granule's span is never negative |
| AuditDswx.SpanRule | audit_dswx/audit_dswx_inputs.py:478-486 | the span from `min` to `max` exceeds the limit iff some two times lie further apart than the limit |
| AuditDswx.FailureRule | audit_dswx/audit_dswx_inputs.py:469-495 | a granule fails iff it has more than one track, no acquisition time, or two times further apart than the limit |
| AuditDswx.Or | audit_dswx/audit_dswx_inputs.py:385-389 | `value or default` gives the value when it is present and non-empty, the default otherwise |
| AuditDswx.RawInputs | audit_dswx/audit_dswx_inputs.py:447-452 | each input item becomes its `GranuleUR` when it is a dict holding one, its `str` otherwise, in order |
| AuditDswx.Inspect | audit_dswx/audit_dswx_inputs.py:393-437 | a failed metadata fetch is recorded as a failure that is not a missing-inputs case; an entry counts as missing its inputs iff its metadata arrives without any |
| AuditDswx.InspectEntry | audit_dswx/audit_dswx_inputs.py:382-527 | one iteration of main's loop computes `Inspect` |
| AuditDswx.InspectPasses | audit_dswx/audit_dswx_inputs.py:393-527 | an entry passes iff its metadata arrives, lists inputs, and their analysis gives at most one track, some time and no two times too far apart |
| AuditDswx.InspectRaises | audit_dswx/audit_dswx_inputs.py:440-463 | an entry raises iff its metadata lists inputs whose deduplicated names include an untagged one with an invalid time token |
| AuditDswx.Audit | audit_dswx/audit_dswx_inputs.py:374-527 | the loop over the search results computes `Tallied` with `Inspect` |
| AuditDswx.TalliedCounts | audit_dswx/audit_dswx_inputs.py:382-527 | `total` counts every entry, missing <= failures <= total, the failures are exactly the entries' failures, and there are none iff every entry passed |
| AuditDswx.TalliedRaises | audit_dswx/audit_dswx_inputs.py:374-527 | the loop raises iff some entry raises |
| AuditDswx.ExitCode | audit_dswx/audit_dswx_inputs.py:620 | the exit code is 2 when there are failures and 0 otherwise |
| AuditDswx.ExitZero | audit_dswx/audit_dswx_inputs.py:620 | the audit exits 0 iff every granule passes |
| AuditDswx.Backoff | audit_dswx/audit_dswx_inputs.py:126 | the backoff `min(2 ** (i + 1), 10)` lies between 2 and 10 seconds |
| AuditDswx.Request | audit_dswx/audit_dswx_inputs.py:103-133 | the retry loop computes `RetryFrom` from the first try, with its sleeps |
| AuditDswx.RetrySpec | audit_dswx/audit_dswx_inputs.py:121-133 | the response returned is the first below 500; every failed try before it slept once with its backoff; the call gives up iff every try failed, after one sleep per try |
| AuditDswx.DefaultSchedule | audit_dswx/audit_dswx_inputs.py:113-118 | five failed tries give up after sleeping 2, 4, 8, 10 and 10 seconds |
| AuditDswx.SearchDswx | audit_dswx/audit_dswx_inputs.py:161-189 | the paging loop computes `ListFrom` from page 1 |
| AuditDswx.ListingLocal | audit_dswx/audit_dswx_inputs.py:161-162 | the listing reads no page past `max_pages` |
| AuditDswx.ListingBound | audit_dswx/audit_dswx_inputs.py:175-189 | when no page is longer than `page_size`, the listing holds at most `page_size` entries per allowed page |
| FindGranules.GetPrefix | find_granules.py:12-22 | a prefix exists only for names holding `HLS` or `SLC`, starts with `inputs/` and ends with `/<granule>-r1`; a name with neither leaves `par_dir` unbound |
| FindGranules.HlsPrefix | find_granules.py:17-18 | an HLS name `<a>.<b>...` has the prefix `inputs/<a>_<b>/<name>-r1` |
| FindGranules.SlcPrefix | find_granules.py:19-20 | an SLC name `<a>_<b>_<c>...` without `HLS` has the prefix `inputs/<c>/<name>-r1` |
| FindGranules.TypicalFile | find_granules.py:25-33 | the typical file extends the granule name, and there is none exactly when the name holds none of `SLC`, `HLS.S30`, `HLS.L30` |
| FindGranules.CheckS3 | find_granules.py:36-60 | found means the typical object loaded, missing means the request failed with code 404; any other failure is raised |
| FindGranules.Classify | find_granules.py:95-106 | with the always-false GRQ flag of `check_granule_grq` (lines 63-71) the two GRQ-only branches are unreachable; both-found and both-missing exactly when the flags agree |
| FindGranules.FindMissingGranules | find_granules.py:74-108 | the loop over the stripped lines computes the six lists of the specification `FindAll`, or the exception of the first granule that raises |
| FindGranules.FindAllFails | find_granules.py:86-91 | the loop raises exactly when the check of some granule raises |
| FindGranules.FindAllShape | find_granules.py:93-106 | the GRQ lists, `both_found` and `s3_missing` stay empty and every granule lands in `s3_found` or `both_missing` |
| FindGranules.FindAllMembers | find_granules.py:95-100 | `s3_found` holds exactly the granules found in S3, `both_missing` exactly those with a 404 |
| FindGranules.FindAllFound | find_granules.py:86-100 | when every object is in S3, `s3_found` is the file's granules in file order |
| Cron.Args.GetStartEndDates | duplicates/duplicate_and_accountability_cron.py:41-51 | the bounds written back into the arguments and the returned `%Y-%m-%dT%H:%M:%SZ` texts are those of `Window`; on an overflow the end is already overwritten with today's midnight |
| Cron.GivenBounds | duplicates/duplicate_and_accountability_cron.py:42-46 | a given bound is kept and a missing one becomes `1900-01-01T00:00:00Z` or `3000-01-01T00:00:00Z` |
| Cron.DaysBackWindow | duplicates/duplicate_and_accountability_cron.py:47-49 | without bounds the window ends at today's midnight, starts at a midnight exactly `days_back` days (of 86400 seconds) earlier, and fails exactly without `--days-back` or before year 1 |
| Cron.Flatten | duplicates/duplicate_and_accountability_cron.py:456-470 | the duplicates are the sorted concatenation of every group's list of every date, and the date map is `DateMap` of the dates |
| Cron.FlattenSpec | duplicates/duplicate_and_accountability_cron.py:460-470 | the flattened duplicates are sorted, keep every listed name with its repeats and hold nothing else |
| Cron.DateMapKeys | duplicates/duplicate_and_accountability_cron.py:464-468 | the date map has one key per date of the report |
| Cron.DateMapValue | duplicates/duplicate_and_accountability_cron.py:464-468 | a date's entry holds the granule count, duplicate count and percentage of that date's entry |
| Cron.Percent | duplicates/duplicate_and_accountability_cron.py:521-526 | the percentage is 0 for a report without granules, and lies in 0..100 when the duplicates do not outnumber the granules |
| Cron.MergeTimeseriesAsWritten | duplicates/duplicate_and_accountability_cron.py:538-553 | the loop, `pop`, slice and sort of the series as written compute `MergeAsWritten`, `None` being the `IndexError` |
| Cron.FullSeriesDropsNew | duplicates/duplicate_and_accountability_cron.py:552 | once the series holds `plot_length` earlier runs, the slice keeps them and drops the run just made |
| Cron.PopDropsNew | duplicates/duplicate_and_accountability_cron.py:546-550 | a same-day entry ahead of another shifts the new run under the last index, and it is popped too |
| Cron.MergeTimeseries | duplicates/duplicate_and_accountability_cron.py:546-553 | the corrected update computes `Merge`: earlier runs of other days plus the new one, the last `plot_length` of them, sorted by date |
| Cron.MergeSorted | duplicates/duplicate_and_accountability_cron.py:552-553 | the series is sorted by date and holds at most `plot_length` runs |
| Cron.MergeMembers | duplicates/duplicate_and_accountability_cron.py:546-553 | the series holds the new run and exactly the newest `plot_length - 1` earlier runs of other days, so its length is `plot_length` or, with fewer earlier runs, all of them plus one |
| Cron.LastPlotDay | duplicates/duplicate_and_accountability_cron.py:164-171 | the last plot day is a valid day: the end's day, or the day before when the end is exactly midnight |
| Cron.ReportDays | duplicates/duplicate_and_accountability_cron.py:173-178 | the `while date <= end_date` loop computes `PlotRange`, failing with the overflow of stepping past 9999-12-31 |
| Cron.DaysFromFails | duplicates/duplicate_and_accountability_cron.py:175-178 | the day loop fails exactly when it has to step past 9999-12-31 |
| Cron.DaysFromDays | duplicates/duplicate_and_accountability_cron.py:175-178 | the loop lists one `%Y-%m-%d` day per day of the range, the `k`-th being `k` days after the start |
| Cron.PlotDays | duplicates/duplicate_and_accountability_cron.py:180-186 | a product's plot days are the union of its dates and the report's days, without repeats and sorted |
| Cron.Accountability | duplicates/duplicate_and_accountability_cron.py:313-360 | nothing is produced exactly when there are no keys; otherwise the report's lines are the missing granules, sorted, and the missing count is their number |
| Cron.AccountabilityNames | duplicates/duplicate_and_accountability_cron.py:313-350 | one day names the plot after it alone and the report from it to itself; several days name both the plot and the report from a least to a greatest key; the missing granules do not change the names |
| Cron.FacetKeyName | duplicates/duplicate_and_accountability_cron.py:314-320 | a key made from a day names its plot after that day's ISO date |
| StaticLayers.ConfigOf | static_layers/StaticLayersValidator.py:25-43 | only `CSLC-S1` and `RTC-S1` have a configuration, and both collections are static-layer collections |
| StaticLayers.BurstKeyExample | static_layers/StaticLayersValidator.py:75-76 | `t175_374393_iw2` is converted to `T175-374393-IW2` |
| StaticLayers.Validator.BurstIdsFromFile | static_layers/StaticLayersValidator.py:58-82 | the loop over the text's lines computes `ReadBursts`: the map from burst to frame and the count of non-blank lines, or the `ValueError` of the first bad line |
| StaticLayers.ReadBurstsCount | static_layers/StaticLayersValidator.py:69-80 | reading fails exactly when a non-blank line is not three comma fields; the count is the number of non-blank lines, and there are no more unique bursts than that |
| StaticLayers.ReadBurstsKeys | static_layers/StaticLayersValidator.py:72-78 | the bursts read are exactly the converted first fields of the non-blank lines |
| StaticLayers.ReadBurstsFrame | static_layers/StaticLayersValidator.py:74-78 | a burst's frame is the third field of the last line listing it: a later line overwrites an earlier one |
| StaticLayers.SearchFromNone | static_layers/StaticLayersValidator.py:100 | the search finds nothing exactly when no start position has a match of the pattern |
| StaticLayers.SearchFromSome | static_layers/StaticLayersValidator.py:100-103 | the captured burst comes from the leftmost start with a match and, for it, the last split point of the greedy `.+` |
| StaticLayers.BurstShape | static_layers/StaticLayersValidator.py:100-103 | a captured burst is 15 characters of the shape `\w\d{3}-\d{6}-\w\w\d` |
| StaticLayers.TitleExample | static_layers/StaticLayersValidator.py:98-103 | the title `OPERA_L2_CSLC-S1-STATIC_T004-006642-IW3_20140403_S1A_v1.0` yields `T004-006642-IW3` |
| StaticLayers.Validator.BurstIdsFromCmr | static_layers/StaticLayersValidator.py:84-110 | the loop over the titles computes `Group` of the pattern's burst, or the `AttributeError` of the first title the pattern misses |
| StaticLayers.GroupFails | static_layers/StaticLayersValidator.py:97-103 | grouping fails exactly when the pattern misses some title |
| StaticLayers.GroupSpec | static_layers/StaticLayersValidator.py:97-108 | there is a group exactly for each burst some title names, and it holds exactly the titles naming it, in encounter order |
| StaticLayers.TitlesOfMembers | static_layers/StaticLayersValidator.py:105-108 | a title lands in the group of burst `b` exactly when it names `b`, so in exactly one group |
| StaticLayers.Validator.IdentifyDuplicates | static_layers/StaticLayersValidator.py:112-132 | the count is the number of bursts with more than one static layer, at most the number of bursts |
| StaticLayers.DuplicatedSpec | static_layers/StaticLayersValidator.py:124-126 | a burst counts as duplicated exactly when two or more titles name it |
| StaticLayers.Validator.IdentifyMissing | static_layers/StaticLayersValidator.py:134-149 | the missing bursts are the file's bursts absent from CMR, the missing frames their frames, and there are no more missing frames than missing bursts |
| StaticLayers.FramesBound | static_layers/StaticLayersValidator.py:142-153 | the frames of a set of bursts are no more than the bursts |
| StaticLayers.Validator.Validate | static_layers/StaticLayersValidator.py:45-56 | a run reads the file, then CMR, then counts the duplicates and collects the missing bursts and frames: `Validation` |
| StaticLayers.ValidationSpec | static_layers/StaticLayersValidator.py:45-56 | a burst is missing exactly when a non-blank line lists it and no CMR title names it; the duplicate count is at most the CMR burst count and the file's bursts at most its non-blank lines |
| SummaryReport.Truncate | metrics_report_generation/generate_unified_summary_report.py:115 | `int()` truncates toward zero: the greatest integer not above a non-negative input, the least not below a negative one |
| SummaryReport.Components | metrics_report_generation/generate_unified_summary_report.py:115-116 | the hours (whole days times 24 plus hours), minutes and seconds add back up to the seconds, minutes and seconds lie in 0..59, and the hours are negative exactly when the seconds are |
| SummaryReport.HoursWidth | metrics_report_generation/generate_unified_summary_report.py:117 | the hours of a non-negative duration take at least two digits and spell the hours; from 10 on they are the plain decimal with no leading zero |
| SummaryReport.HoursFieldValue | metrics_report_generation/generate_unified_summary_report.py:117 | the hours field has no `:` and reads back as the hours, negative ones with their sign |
| SummaryReport.ClockRoundTrip | metrics_report_generation/generate_unified_summary_report.py:116-117 | reading `HH:MM:SS` back gives hours times 3600 plus minutes times 60 plus seconds |
| SummaryReport.DurationRoundTrip | metrics_report_generation/generate_unified_summary_report.py:115-117 | the text of a duration reads back as its seconds truncated toward zero |
| SummaryReport.RetrievalHistogramShape | metrics_report_generation/generate_unified_summary_report.py:136-139 | the retrieval histogram name ends with `<start> to <end>.png`, both date-times with every `:` removed, and has no `:` unless the directory or a product or report name brings one |
| SummaryReport.ProductionHistogramShape | metrics_report_generation/generate_unified_summary_report.py:184-187 | the production histogram name ends the same way and has no `:` unless the directory or a product or report name brings one |
| SummaryReport.HistogramStamp | metrics_report_generation/generate_unified_summary_report.py:434-435 | removing every `:` from a `%Y-%m-%dT%H:%M:%SZ` date-time gives the `%Y-%m-%dT%H%M%S` file-name stamp followed by `Z` |
| SummaryReport.FileStampFields | metrics_report_generation/generate_unified_summary_report.py:366-371 | a file-name stamp is 17 characters: a 4-digit year, `-`, month, `-`, day, `T`, then hour, minute and second, two digits each |
| SummaryReport.FileStampRoundTrip | metrics_report_generation/generate_unified_summary_report.py:84-86 | `strptime` with `%Y-%m-%dT%H%M%S` reads back the date-time the stamp was written from, to the second |
| SummaryReport.SplitExtRootAt | metrics_report_generation/generate_unified_summary_report.py:84 | `osp.splitext(name)[0]` cuts the name at the last `.` of its base name, unless only dots precede that `.` |
| SummaryReport.EveryOther | metrics_report_generation/generate_unified_summary_report.py:84 | `[::2]` keeps every other field, starting with the first |
| SummaryReport.FileCoverage | metrics_report_generation/generate_unified_summary_report.py:84-86 | a file name reads exactly when the third and fifth space-separated fields of its stem are the only picks and both are stamps; otherwise the unpacking or `strptime` `ValueError` |
| SummaryReport.NamePicks | metrics_report_generation/generate_unified_summary_report.py:84 | the fields picked from `<dir>/<kind>-<form> - <s1> to <s2>.csv` are `s1` and `s2` |
| SummaryReport.ReportNameCoverage | metrics_report_generation/generate_unified_summary_report.py:371 | the detailed report's name, read back by `read_all_csv_files`'s rule, gives the start and end it was written from |
| SummaryReport.Earlier | metrics_report_generation/generate_unified_summary_report.py:85 | `min` of two date-times is one of them and no later than either |
| SummaryReport.Later | metrics_report_generation/generate_unified_summary_report.py:86 | `max` of two date-times is one of them and no earlier than either |
| SummaryReport.CoverageOk | metrics_report_generation/generate_unified_summary_report.py:80-86 | reading all names succeeds exactly when every name reads |
| SummaryReport.CoverageSpans | metrics_report_generation/generate_unified_summary_report.py:77-86 | the start is the least of the sentinel and every file's start, the end the greatest of the sentinel and every file's end, each one of those values |
| SummaryReport.CoverageEmpty | metrics_report_generation/generate_unified_summary_report.py:77-78 | with no files the sentinels 3000-01-01 and 2000-01-01 are returned, the start after the end |
| SummaryReport.CoverageSticks | metrics_report_generation/generate_unified_summary_report.py:80-86 | once a name raises, the later files change nothing: the first error is the result |
| SummaryReport.ReadAllCsvFiles | metrics_report_generation/generate_unified_summary_report.py:80-86 | the loop computes `Coverage` with the file-name rule |
| SummaryReport.PlotStat | metrics_report_generation/generate_unified_summary_report.py:242-247 | `Retrieval Time` plots the P90 and `Production Time` the mean; any other column is a `ValueError` naming it |
| SummaryReport.Ticks | metrics_report_generation/generate_unified_summary_report.py:253-272 | the ticks are the minimum (one decimal), the statistic capped at 30 (two decimals), the maximum or `30+` from 30 on, and `24` when the maximum exceeds 24 |
| SummaryReport.Marker | metrics_report_generation/generate_unified_summary_report.py:284-292 | the line sits at the statistic capped at 30 and is red exactly when the statistic exceeds 24 |
| CmnSendManual.UpdatedSpec | cmn_send_manual.py:27-40 | the returned query has a `bool.must` list: the input's, or an empty one when `bool` or `must` is missing, followed by exactly one new entry `{"match": {"_id": id}}`; the other keys of the query and of `bool` are unchanged |
| CmnSendManual.UpdatedTwice | cmn_send_manual.py:38 | narrowing a query twice keeps both matches, in order, after the original `must` entries |
| CmnSendManual.UpdateUserRuleQuery | cmn_send_manual.py:27-40 | the result is a fresh dict spelling `Updated` of the input; it shares the input's `bool` dict and an existing `must` list, so the input sees the new entry too, and only an input without `bool` is left unchanged |
| CmnSendManual.Load | cmn_send_manual.py:97 | `json.loads` gives fresh objects spelling the rule's query, so each product starts from the unnarrowed query |
| CmnSendManual.GetUserRules | cmn_send_manual.py:14-24 | the rules are the `_source` of every hit, in order |
| CmnSendManual.FirstRuleSpec | cmn_send_manual.py:46-50 | a rule is found exactly when some rule's job type contains `hysds-io-send_notify_msg` and its name ends with the dataset type, and the one found is the first such rule |
| CmnSendManual.GetUserRuleByDs | cmn_send_manual.py:43-50 | the loop returns `FirstRule`, or the exception `No user rules found for dataset: <ds>` when there is none |
| CmnSendManual.JobTypeNameSpec | cmn_send_manual.py:113 | a job type starting with `hysds-io-` loses exactly that prefix, once, and any other job type is kept |
| CmnSendManual.JobNameSpec | cmn_send_manual.py:114-115 | a job name exists exactly when the job type, prefix removed, holds a `:`; otherwise indexing the second field raises |
| CmnSendManual.JobNameOf | cmn_send_manual.py:113-115 | the job type `hysds-io-<a>:<b>` gives the job name `job-<a>__<b>-<id>` |
| CmnSendManual.ProductIdOfLine | cmn_send_manual.py:93-94 | a line read with its newline gives back the product id before the newline |
| CmnSendManual.Accountability.Record | cmn_send_manual.py:118-123 | a success increments the success counter and appends the id to its list; a failure does the same on the failure side |
| CmnSendManual.Attempt | cmn_send_manual.py:96-123 | one product's loop body computes `Outcome`: skipped unless the search returns exactly one document, else the document's id and whether the job name exists and the submission returned |
| CmnSendManual.SubmittedNext | cmn_send_manual.py:96-123 | each product adds its outcome, if any, to the accounting of the products before it |
| CmnSendManual.SubmittedCounts | cmn_send_manual.py:86-123 | each counter equals the length of its id list, and every product with exactly one document is counted once, as a success or as a failure |
| CmnSendManual.SubmittedIds | cmn_send_manual.py:111-123 | every listed id is the one document of some product, on the success list only if its submission returned and on the failure list only if it raised |
| CmnSendManual.NoJobNameNoSuccess | cmn_send_manual.py:113-123 | a job type without a `:` after its prefix makes every submission fail: the `IndexError` is caught and counted as a failure |
| CmnSendManual.SubmitAll | cmn_send_manual.py:80-123 | the main block computes `Run`: the rule lookup's exception, or the accounting over the product ids under the rule renamed `manual-<name>`, searching the index `grq_v1.0_<ds lower-cased>-*` |
| ProcessHlsEvents.FoldOk | process_hls_events/process_hls_from_cmr.py:29-49 | the dictionary lists each granule once, in first-seen order, and its keys are the granules listed |
| ProcessHlsEvents.FoldKeys | process_hls_events/process_hls_from_cmr.py:35-43 | a granule has an entry exactly when some row names it, whatever its status (`event_dict[id]` creates the entry) |
| ProcessHlsEvents.FoldInitial | process_hls_events/process_hls_from_cmr.py:45-46 | a granule has no initial revision exactly when none of its rows has status `201`; otherwise the initial revision is the time of its last `201` row, a later one overwriting an earlier one |
| ProcessHlsEvents.FoldSubs | process_hls_events/process_hls_from_cmr.py:48-49 | the subsequent revisions of a granule are the times of its `200` rows, in row order; rows of other statuses add nothing |
| ProcessHlsEvents.ReadEvents | process_hls_events/process_hls_from_cmr.py:31-49 | the reading loop computes `ReadLog`: `StopIteration` on an empty file, the first row's `IndexError` or `strptime` failure (the id read before the time, the status after), or the dictionary of every row after the header |
| ProcessHlsEvents.ParsedSticks | process_hls_events/process_hls_from_cmr.py:35-39 | once a row raises, the rows after it are never read |
| ProcessHlsEvents.SortAscending | process_hls_events/process_hls_from_cmr.py:54 | `sort()` leaves the subsequent revisions in ascending order |
| ProcessHlsEvents.DeltasSpec | process_hls_events/process_hls_from_cmr.py:54-61 | the written deltas are ascending and are, each once, the subsequent revisions minus the initial one |
| ProcessHlsEvents.NegativeDelta | process_hls_events/process_hls_from_cmr.py:60 | a subsequent revision earlier than the initial one gives a negative delta (initial 10, revision 4: delta -6) |
| ProcessHlsEvents.LineCommas | process_hls_events/process_hls_from_cmr.py:58-63 | with comma-free id and renderings, a row holds one `,` after the id and one after each of the granule's subsequent revisions, and ends with a newline |
| ProcessHlsEvents.WrittenSpec | process_hls_events/process_hls_from_cmr.py:57 | a granule is written exactly when it has an initial revision and at least one subsequent one |
| ProcessHlsEvents.LinesSpec | process_hls_events/process_hls_from_cmr.py:52-63 | the k-th line written is the line of the k-th written granule, in the dictionary's order |
| ProcessHlsEvents.WriteLine | process_hls_events/process_hls_from_cmr.py:58-62 | a row before its newline is the id, `,`, then each delta's text and a `,` |
| ProcessHlsEvents.WriteResult | process_hls_events/process_hls_from_cmr.py:51-63 | the writing loop produces `Lines` over the dictionary's keys in insertion order |
| ProcessHlsEvents.Run | process_hls_events/process_hls_from_cmr.py:31-63 | the script gives the exception the reading raises, or the written lines of the gathered dictionary |
| SlcBursts.GroupOk | slc_granules_to_bursts.py:17-19 | the dictionary lists each granule once, in first-seen order, and its keys are the granules listed |
| SlcBursts.GroupSpec | slc_granules_to_bursts.py:17-19 | a granule is a key exactly when some row names it in its third field, and its set is exactly the first fields of those rows, repeats collapsed |
| SlcBursts.MapSlcGranulesToBursts | slc_granules_to_bursts.py:7-21 | the loop raises exactly when some row has fewer than 3 fields, and otherwise returns `Group` of the rows |
| SlcBursts.OddSpec | slc_granules_to_bursts.py:28-31 | a granule is printed and counted exactly when it is a key whose set does not hold 27 bursts |
| SlcBursts.OddCount | slc_granules_to_bursts.py:25-35 | the final count is the number of granules whose set does not hold 27 bursts |
| SlcBursts.CountOdd | slc_granules_to_bursts.py:25-31 | the loop prints each such granule with its number of bursts, in the dictionary's order, and counts one per line printed |
| SlcBursts.Run | slc_granules_to_bursts.py:23-35 | the script gives the exception of a short row, or the printed lines and their count |
| UniqueSafeIds.AllIdsSpec | missing_rtc_static_layers/unique_safe_ids.py:8-15 | an id is collected exactly when it is the second field of a row with more than one field, the header row of each file excepted |
| UniqueSafeIds.AllIdsOrderFree | missing_rtc_static_layers/unique_safe_ids.py:8 | the ids collected do not depend on the order in which the glob lists the files |
| UniqueSafeIds.ReadFile | missing_rtc_static_layers/unique_safe_ids.py:10-15 | one file's rows after its header add their second fields to the set |
| UniqueSafeIds.CollectIds | missing_rtc_static_layers/unique_safe_ids.py:5-15 | the loop over the files collects `AllIds` |
| UniqueSafeIds.SortedIds | missing_rtc_static_layers/unique_safe_ids.py:19 | `sorted(unique_ids)` lists every id once, in ascending code-point order, and nothing else |
| UniqueSafeIds.ListingSplit | missing_rtc_static_layers/unique_safe_ids.py:18-20 | the written file, split at its newlines, gives back the ids and the empty text after the final newline, when no id holds a newline |
| UniqueSafeIds.WriteIds | missing_rtc_static_layers/unique_safe_ids.py:18-20 | the writing loop writes each id followed by a newline, in order |
| UniqueSafeIds.Run | missing_rtc_static_layers/unique_safe_ids.py:1-22 | the script writes, one per line, the ids of the files sorted and each once |
| UniqueSafeIds.OutputDetermined | missing_rtc_static_layers/unique_safe_ids.py:19 | only one list is sorted and holds exactly the ids, so the output is determined by the files |
| CsvToGeojson.SplitMaxJoin | missing_rtc_static_layers/csv_to_geojson.py:20 | the parts of `line.split(",", 4)`, joined with commas, give back the line |
| CsvToGeojson.SplitMaxPieces | missing_rtc_static_layers/csv_to_geojson.py:20 | no part but the last holds a comma: the commas after the fourth stay in the footprint part |
| CsvToGeojson.SplitMaxCount | missing_rtc_static_layers/csv_to_geojson.py:20-21 | there is one part more than there are commas, up to 4 of them, so a line has 5 parts exactly when it holds at least 4 commas |
| CsvToGeojson.MalformedSpec | missing_rtc_static_layers/csv_to_geojson.py:15-23 | a line is reported as malformed exactly when, stripped, it is not empty and holds fewer than 4 commas; an empty line is skipped without a report |
| CsvToGeojson.GoodFields | missing_rtc_static_layers/csv_to_geojson.py:25-29 | a line that gives a feature splits into 5 parts that join back to the stripped line; the burst id, SAFE id and both orbits are the first four parts stripped, hold no comma, and the geometry is `wkt.loads` of the cleaned fifth part |
| CsvToGeojson.PolygonClean | missing_rtc_static_layers/csv_to_geojson.py:29 | the footprint text holds no newline or carriage return and neither begins nor ends with a double quote |
| CsvToGeojson.ColorSpec | missing_rtc_static_layers/csv_to_geojson.py:38-42 | the marker is red exactly when the burst id is `none` in any mix of letter case, and blue otherwise |
| CsvToGeojson.OutcomesNumbered | missing_rtc_static_layers/csv_to_geojson.py:14-23 | the line after the header is numbered 2, and each later line one more, in the reports of malformed lines |
| CsvToGeojson.MalformedOrder | missing_rtc_static_layers/csv_to_geojson.py:14-23 | each reported line carries the number and stripped text of a malformed line of the file, and the reports follow file order with no line reported twice |
| CsvToGeojson.BodyCount | missing_rtc_static_layers/csv_to_geojson.py:14-57 | each line gives at most one feature or one report |
| CsvToGeojson.BodySticks | missing_rtc_static_layers/csv_to_geojson.py:44 | a footprint `wkt.loads` cannot read ends the conversion with that exception, whatever the later lines hold |
| CsvToGeojson.Absorb | missing_rtc_static_layers/csv_to_geojson.py:17-57 | the loop body appends the line's report or feature, skips a blank line, or raises for an unreadable footprint |
| CsvToGeojson.ReadLines | missing_rtc_static_layers/csv_to_geojson.py:14-57 | the loop over the lines computes `Body` of the lines' outcomes, numbered from 2 |
| CsvToGeojson.CsvToGeojson | missing_rtc_static_layers/csv_to_geojson.py:5-57 | an empty file raises at the header; otherwise the result is the conversion of the lines after it |
| HlsByTile.GenUrl | get_hls_granule_by_tile.py:20-31 | the query is built exactly for a positive page number; otherwise the assertion fails |
| HlsByTile.UrlParts | get_hls_granule_by_tile.py:23-29 | the query holds `&attribute[]=string,MGRS_TILE_ID,<tile>` and `&temporal[]=<start>, <end>`, ends with `&page_num=<page>`, and `int` of its text after the last `=` is the page number |
| HlsByTile.UrlPageInjective | get_hls_granule_by_tile.py:29 | two pages of the same tile and range are asked for by different queries |
| HlsByTile.TileSpec | get_hls_granule_by_tile.py:63-65 | an empty tile argument raises `IndexError`; `T<t>` gives `<t>`, one `T` removed even when another follows, and an argument not starting with `T` is kept |
| HlsByTile.TimesOrdered | get_hls_granule_by_tile.py:67-69 | the start of a day's range comes before its end, and for days written alike the end of an earlier day comes before the start of a later one |
| HlsByTile.NeededSpec | get_hls_granule_by_tile.py:71-79 | the loop stops after the first page that brings the number of ids to the first page's `hits`, and fetches past the listing exactly when no page does |
| HlsByTile.FetchGranules | get_hls_granule_by_tile.py:71-79 | page 1 is fetched, then pages 2, 3, … in turn while fewer ids than `hits` are collected; the queries sent are those of pages 1 to `Requests`, and the ids those of `Granules` |
| HlsByTile.Present | get_hls_granule_by_tile.py:73-81 | the ids of a list are available exactly when no item lacks its `native-id`, and they are the items' ids in order |
| HlsByTile.OutputSplits | get_hls_granule_by_tile.py:81 | the printed text, split at its newlines, gives back the ids when there is one at least and none holds a newline |
| HlsByTile.Run | get_hls_granule_by_tile.py:61-81 | the main block fails with `IndexError` on an empty tile, else sends the queries of `FetchGranules` for the tile without its `T`, from the start day's first second (default 2014-01-01) to the end day's last (default today), and prints the ids one per line, or raises `TypeError` for a missing id |
| MgrsTiles.Children | mgrs_tile_to_safe_archive/mgrs_tile_to_safe_archive.py:36 | `for x in v` iterates a list's items, a dict's keys and a string's characters, and raises exactly for `None`, booleans and numbers |
| MgrsTiles.FlattenLeaves | mgrs_tile_to_safe_archive/mgrs_tile_to_safe_archive.py:35-40 | `flatten` yields no list: every value is a dict, a string or a scalar |
| MgrsTiles.FlattenAppend | mgrs_tile_to_safe_archive/mgrs_tile_to_safe_archive.py:35-40 | flattening two runs of items one after the other yields the first's values, then the second's |
| MgrsTiles.FlattenFlat | mgrs_tile_to_safe_archive/mgrs_tile_to_safe_archive.py:39-40 | items that hold no list are yielded unchanged and in order |
| MgrsTiles.FlattenIdempotent | mgrs_tile_to_safe_archive/mgrs_tile_to_safe_archive.py:35-40 | flattening the values `flatten` yielded yields them again, unchanged |
| MgrsTiles.FlattenNested | mgrs_tile_to_safe_archive/mgrs_tile_to_safe_archive.py:37-38 | a nested list is yielded in its place: the values before it, its own flattened values, then the values after it |
| MgrsTiles.TileBoundsSpec | mgrs_tile_to_safe_archive/mgrs_tile_to_safe_archive.py:42-66 | a tile of other than 5 characters raises first; the box exists exactly when `toLatLon` of the tile with `55` appended and `int` of its first two characters succeed, and is drawn in EPSG `32600 + zone` when the band letter is `N` or later and `32700 + zone` otherwise |
| MgrsTiles.DigitZone | mgrs_tile_to_safe_archive/mgrs_tile_to_safe_archive.py:51 | a zone written with two digits is the number they denote, below 100 |
| MgrsTiles.TableTilesNorth | mgrs_tile_to_safe_archive/mgrs_tile_to_safe_archive.py:14-24 | every tile of the table has 5 characters, lies north of the equator in zones 10 to 19, and is drawn in a projection from 32610 to 32619 |
| MgrsTiles.TeenZoneNorth | mgrs_tile_to_safe_archive/mgrs_tile_to_safe_archive.py:51-53 | a tile `1<digit><band>` with a band letter `N` or later is drawn in EPSG 32610 to 32619 |
| MgrsTiles.MakeRecord | mgrs_tile_to_safe_archive/mgrs_tile_to_safe_archive.py:97-113 | a record keeps, in order, the item's value for each of the 12 keys, or `None` where the item lacks that key |
| MgrsTiles.ItemRecordsSpec | mgrs_tile_to_safe_archive/mgrs_tile_to_safe_archive.py:94-121 | one record is made per dict among the flattened values, each from one such dict |
| MgrsTiles.FoundCount | mgrs_tile_to_safe_archive/mgrs_tile_to_safe_archive.py:94-125 | a platform's status line counts exactly the dicts among the flattened reply, and says no usable results when there are none |
| MgrsTiles.AddTilesSpec | mgrs_tile_to_safe_archive/mgrs_tile_to_safe_archive.py:82-129 | `features` runs alongside `all_results`, each feature holding the record at its place, and every record names a tile of the table with its description and one of the platforms |
| MgrsTiles.CollectItems | mgrs_tile_to_safe_archive/mgrs_tile_to_safe_archive.py:94-121 | the item loop appends a record and a feature for each dict, in order, and counts them |
| MgrsTiles.SearchTile | mgrs_tile_to_safe_archive/mgrs_tile_to_safe_archive.py:89-127 | the platform loop computes `AddPlatforms`: a search that raises or a reply that is not iterable adds only an error line |
| MgrsTiles.SearchTiles | mgrs_tile_to_safe_archive/mgrs_tile_to_safe_archive.py:85-129 | the tile loop computes `AddTiles`: a tile whose box raises adds only an error line |
| BurstToSafe.IdsSpec | missing_rtc_static_layers/opera_rtc_burst_to_input_safe.py:54 | an id is listed exactly when it is not empty and some line of the file strips to it |
| BurstToSafe.KeptSpec | missing_rtc_static_layers/opera_rtc_burst_to_input_safe.py:54 | the comprehension keeps exactly the non-empty cleaned lines, whatever the cleaning |
| BurstToSafe.MatchSpec | missing_rtc_static_layers/opera_rtc_burst_to_input_safe.py:60-61 | `re.match` accepts an id exactly when it begins with `T`, three digits, `-`, one digit or more, `-IW` and a digit, and the groups are those parts |
| BurstToSafe.RelativeOrbit | missing_rtc_static_layers/opera_rtc_burst_to_input_safe.py:67 | the relative orbit is the number the three track digits spell, below 1000 |
| BurstToSafe.KeySpec | missing_rtc_static_layers/opera_rtc_burst_to_input_safe.py:70-71 | the grid key of an accepted id has its length, no `-`, and begins with `t`, the track, `_`, the burst number, `_iw` and the swath digit |
| BurstToSafe.RowsSpec | missing_rtc_static_layers/opera_rtc_burst_to_input_safe.py:105-107 | each granule before the first with a missing key gives its line in order; the script stops exactly when a granule misses a key, at the first |
| BurstToSafe.RetryAnswers | missing_rtc_static_layers/opera_rtc_burst_to_input_safe.py:94-109 | the first reply that is not a failed request decides the burst's lines, and the requests sent are those up to and including it |
| BurstToSafe.RetryGivesUp | missing_rtc_static_layers/opera_rtc_burst_to_input_safe.py:94-112 | three failed requests write nothing for the burst and send no fourth |
| BurstToSafe.VisitSpec | missing_rtc_static_layers/opera_rtc_burst_to_input_safe.py:58-65 | a burst that does not match or lies outside the window writes nothing; every line written for a burst begins with its id |
| BurstToSafe.VisitsStop | missing_rtc_static_layers/opera_rtc_burst_to_input_safe.py:72-74 | once an uncaught exception ends the script, later ids write nothing |
| BurstToSafe.VisitsLines | missing_rtc_static_layers/opera_rtc_burst_to_input_safe.py:57-107 | every line written begins with the id of a burst that matches and whose count is in the window |
| BurstToSafe.WindowBound | missing_rtc_static_layers/opera_rtc_burst_to_input_safe.py:65 | the bursts searched are at most the counts in the window, so at most `stop - start + 1` |
| BurstToSafe.ConfiguredWindow | missing_rtc_static_layers/opera_rtc_burst_to_input_safe.py:32-33 | with `start_count` 1 and `stop_count` 1000, at most 1000 bursts are searched |
| BurstToSafe.WriteRows | missing_rtc_static_layers/opera_rtc_burst_to_input_safe.py:105-107 | the granule loop computes `Rows`, stopping at the first missing key |
| BurstToSafe.Search | missing_rtc_static_layers/opera_rtc_burst_to_input_safe.py:94-112 | the retry loop computes `Retry` and sends `Tries` requests, at most three |
| BurstToSafe.VisitOne | missing_rtc_static_layers/opera_rtc_burst_to_input_safe.py:58-112 | the loop body for one id computes `Visit` |
| BurstToSafe.Run | missing_rtc_static_layers/opera_rtc_burst_to_input_safe.py:49-112 | the output is the header and the lines of `Visits` over the listed ids, and the failure that ended the script, if any |

## Left out

- The HTTP requests, the `backoff` decorator and its timing: the listing is a sequence of pages, and only `_fatal_code` is modelled.
- `config.yaml` of opera-audit is not part of this model: the detector's pattern is a parameter (a partial function from identifier to fields), as are the unique fields, the aggregation field and format, and the creation field.
- Percentages and averages are floating point and are not computed; their denominators are proved non-zero where the source divides.
- `datetime.now()` run times, logging and the JSON report files.
- The CCID and venue lookup of `duplicate_check.py` (a dictionary lookup with no logic) and the argument parser.
- `re` character classes are ASCII: Python's `\d` and `\w` also accept other Unicode digits and letters.
- `hls_to_s3_prefix.py`: the bucket listing is a parameter; lines keep their newline, which the slices never reach.
- DswxHlsMap: `list(set(...))` of an output's HLS keys enumerates in hash order, which Python randomises; the model takes first-occurrence order, so only the order of `hls_to_dswx`'s keys and lists may differ.
- DswxHlsMap: `product_list.sort` sorts the very lists `date_map` holds, so the written report shows them newest first; the model's report keeps them in output order.
- DswxHlsMap: keys hold the day rather than its facet text; `FacetInjective` shows the two identify the same keys.
- DswxHlsMap: the CMR paging and the constant 15-second backoff with its 300-second limit are left out; `main`'s JSON dump, the summary's query dates and run time, and the bar plots themselves are not modelled, only the plot file name.
- `repr(granule_unique_ids)`, the key of a month's `duplicates` map, is modelled as the key tuple itself (`repr` is injective on tuples of strings).
- AuditDswx: the HTTP session, the UMM fetch (`fetch_umm` becomes a function from concept id to metadata or the text of the exception), `--sleep` between calls, the progress and failure prints, the duplicate-input warnings on stderr, the span statistics, and the CSV and JSON writers are not modelled.
- AuditDswx: spans are exact rationals; Python's float division and the `{:.2f}` rendering (a formatting parameter) are not modelled, nor is the NaN of the two early failures beyond marking it absent.
- AuditDswx: `cmr_search_dswx` is a generator, so the entries of earlier pages are audited before a later page's error ends the run; the model reports only the error, as the run writes no output then.
- AuditDswx: the message texts of `_request`'s and the search's `RuntimeError`s are not built; the outcome keeps the last exception.
- AuditDswx.RetrySpec: does not state which exception `GaveUp` carries (the last one raised).
- AuditDswx.TimeTokenOf: states only the group's length; its digit and `T`/`Z` layout is what `ParseCompactStamp` then checks.
- FindGranules: the S3 `load` request is a parameter from object path to its reply (the bucket is fixed by it); the "doesn't exist" print, the argument parser and `report_found_granules`, which only prints the found lists, are not modelled.
- FindGranules: the file is given as its lines.
- Cron: the subprocess runs of the duplicate and accountability scripts, the S3 uploads and downloads, the OpenSearch documents, the plots themselves and the argument parser are not modelled; the report is given as its `dates` entries and the existing series as a parameter.
- Cron: `now(True)` is the parameter `today`; the `%Y` texts assume years of four digits.
- Cron.Percent: real arithmetic is exact; the floating-point rounding of the division is not modelled.
- Cron.PlotDays: the per-day count tuples drawn for each day (0 for a day without an entry) are not modelled.
- Cron.Accountability: the existence check of the expected plot and the report date in the S3 key are not modelled; the names are returned instead.
- StaticLayers: the GitHub request is left out and its text is a parameter; the CMR `GranuleQuery` is left out and the titles of its granules are a parameter; logging, the example listing of duplicates and the argument parser are not modelled.
- StaticLayers: the missing bursts and frames are returned as sets; the files they are written to, one per line in the set's iteration order, are not modelled.
- StaticLayers.Validator.constructor: requires a product of `CONFIG_DATA`, which the parser's `choices` guarantee; the `KeyError` for another product is `ConfigOf` returning None.
- StaticLayers.BurstKey: `upper()` is modelled on ASCII letters only.
- StaticLayers.BurstOf: `\w` and `\d` are modelled on ASCII characters only; Python also accepts other Unicode letters and digits.
- AuditDswx.Judge: states only that the span is non-negative; `FailureRule` states when it returns a failure.
- CmnSendManual: Elasticsearch, mozart and `submit_mozart_job` are parameters (`search` gives the hits of an index and query; `submit` returns false where the submission raises); logging and the argument parser are not modelled.
- CmnSendManual: a rule's `query_string` is given parsed; a `json.loads` failure, and `bool` or `must` values that are not a dict or a list (on which Python raises), are not modelled; a hit is only its `_id`.
- CmnSendManual: `str.lower()` is modelled on ASCII letters only.
- SummaryReport: the CSV contents, pandas statistics, plots, the argument parser, the file glob and `utcnow()` are not modelled; the file-name rules and the duration text are.
- SummaryReport: durations are exact reals; floating-point rounding is not modelled.
- SummaryReport.FileStampRoundTrip: `strptime` is modelled only for the fixed 17-character `%Y-%m-%dT%H%M%S` layout; its leniency about digit counts is not.
- ProcessHlsEvents: times are integer microseconds; `strptime` on the text without its last 5 characters is the parameter `parse` and `str` of a delta's `total_seconds()` the parameter `render`, so calendar arithmetic and float formatting are not modelled.
- ProcessHlsEvents: the CSV reader's quoting and the file reads and writes are not modelled: the input is its rows as lists of fields and the output its lines.
- ProcessHlsEvents: an `HLSEvents` object is modelled as a value in the map: it is only reached through its key, so its identity is not observable.
- SlcBursts: the CSV file is given as its rows of fields; the file name is fixed in the script and opening and reading it are not modelled.
- SlcBursts: the print of the bursts of one hard-coded granule is not modelled: it is a debugging aid that changes nothing.
- UniqueSafeIds: the glob, the file reads and the CSV reader's quoting are not modelled: the input is the files' rows of fields, in the glob's order, and the output the file's text; the progress prints are left out.
- CsvToGeojson: `wkt.loads` is a parameter returning a geometry of a type parameter, or nothing where it raises; the GeoDataFrame, its `to_file` writer and the prints are not modelled, so the result is the features and the malformed-line reports.
- CsvToGeojson: the file is given as its lines; the header is the first of them, skipped unread.
- CsvToGeojson.ColorSpec: `lower()` is modelled on ASCII letters only.
- HlsByTile: the HTTP requests are left out: the replies are a sequence of pages, page `n` the `n`-th; a reply without `items` or `hits` (a `KeyError`) is not modelled, and an item is only its `meta.native-id`.
- HlsByTile.FetchGranules: when the listing has fewer ids than `hits`, the script keeps requesting pages; the model stops with `ListingEnds` at the first page past the listing.
- HlsByTile: the argument parser is left out; `datetime.now()` is the parameter `today`, the default end day.
- MgrsTiles: the `mgrs` and `pyproj` computations are parameters: `locate` is `toLatLon`, `box` the 50 km square about its point in the tile's UTM projection; the coordinates are floating point and are not modelled.
- MgrsTiles: `search_asf_s1_slc` is the parameter `search`, giving the reply or None where the request or `raise_for_status` raises; the query's dates, product type and polygon text are not modelled.
- MgrsTiles: JSON numbers are integers; the CSV and GeoJSON writers, the folium map and the progress prints are not modelled, only the status line of each tile and platform.
- BurstToSafe: the burst grid is the parameter `grid`, giving for a key the polygon text of the first matching row, or None where no row matches; reading the geometry file and the float formatting of the bounds are not modelled.
- BurstToSafe: the HTTP search is the parameter `reply`, giving for a query and an attempt number a failed request, a body without a list of granules, or the granules; the fixed query parameters (platform, level, dates, `maxResults`) are not modelled, and a granule is only its three fields.
- BurstToSafe: the input file is its lines and the output file its lines; the prints, including the swath text used only in a print, are not modelled.
- BurstToSafe.MatchSpec: `\d` is modelled as the ASCII digits only, and `lower()` in the key as ASCII only.
- BurstToSafe.Run: the window is given as parameters; the constants `StartCount` and `StopCount` hold the configured values.
- DuplicateCheck.CheckDuplicates: the report carries the corrected `duplicate_counts` (the list length minus one per entry of a product without a creation group); the counts as the script writes them, one more per such entry, are `CountsAsWritten` (see Findings).
- Calendar.ParseIso: `datetime.fromisoformat` is modelled with the grammar Python 3.7 to 3.10 accept for these layouts (`YYYY-MM-DD`, then one separator, `HH[:MM[:SS[.fff or .ffffff]]]` and an offset `+HH:MM` or `-HH:MM`); offsets with seconds, and the forms Python 3.11 added (basic format, week dates, other fraction lengths, a `Z` suffix), are modelled as rejected.
- Accountability.CutoffOf: follows `Calendar.ParseIso`, so a cutoff text that only Python 3.11 or later accepts is modelled as unparseable; the same holds for the acquisition times of `Accountability.Acquired`.
- SummaryReport.Components: pandas `Timedelta` holds 64-bit nanoseconds and raises `OutOfBoundsTimedelta` beyond about 292 years; the model's seconds are unbounded, so it gives components for a duration where the script raises.
- SummaryReport.DurationRoundTrip: holds for unbounded durations, including those past the `Timedelta` bound of about 292 years, where the script raises instead.

## Findings

| source | as written | input that shows it | evidently intended | confidence | as-written member | corrected member |
|---|---|---|---|---|---|---|
| duplicates/duplicate_check.py:329-331 | without `CREATE_TS_GROUP`, `duplicate_counts` takes `len(dup)`, the whole list including the key's first granule | the same `RTC_S1_STATIC` granule listed twice: `n_duplicates` is 1 but the minimum and maximum duplicates per granule are 2 | `len(dup) - 1`, which the branch with a creation group computes as `len(duplicate_products)` | medium (not executed) | DuplicateCheck.CountsAsWrittenOverstate | DuplicateCheck.ReportCounts |
| duplicates/duplicate_and_accountability_cron.py:552 | `timeseries_plot_data[:plot_length]` keeps the first entries of the series, to which the new run was appended last | a stored series of `plot_length` runs of earlier days: the new run is cut off and never shown | keep the last `plot_length` entries, `[-plot_length:]` | medium (not executed) | Cron.FullSeriesDropsNew | Cron.MergeMembers |
| duplicates/duplicate_and_accountability_cron.py:546-550 | `pop(i)` inside `for i in range(len - 1)` shifts the later entries left, so the new run (last) moves under an index the loop still visits | stored `[t, x]` with `t` of today and `x` of another day: the new run is popped and the series becomes `[x]` | drop the earlier entries of today and keep the new run | medium (not executed) | Cron.PopDropsNew | Cron.MergeMembers |
