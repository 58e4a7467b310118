/** `duplicates/duplicate_and_accountability_cron.py`: the search window, the
  * flattening of each product's duplicate report, the plot-data time series kept
  * between runs, the days on the count plots and the name of the accountability
  * plot. The sub-scripts it launches, S3, OpenSearch and matplotlib are not
  * modelled. */
module Cron {
  import opened Base
  import opened Calendar
  import DswxHlsMap

  // ------------------------------------------------------ _get_start_end_dates

  /** what `_get_start_end_dates` can raise: `timedelta(days=None)` without
    * `--days-back`, or an `OverflowError` before year 1 */
  datatype WindowError = NoDaysBack | Overflow

  /** the defaults for a missing bound when the other one is given */
  const Earliest: UtcTime := DateTime(Date(1900, 1, 1), 0, 0, 0, 0)
  const Latest: UtcTime := DateTime(Date(3000, 1, 1), 0, 0, 0, 0)

  /** the search window: the given bounds with defaults, or the `daysBack` days up
    * to today's midnight */
  function Window(start: Option<UtcTime>, end: Option<UtcTime>, daysBack: Option<nat>, today: UtcTime)
    : Result<(UtcTime, UtcTime), WindowError>
  {
    if start.Some? || end.Some? then
      var s: UtcTime := if start.Some? then start.value else Earliest;
      var e: UtcTime := if end.Some? then end.value else Latest;
      Ok((s, e))
    else
      match daysBack
      case None => Err(NoDaysBack)
      case Some(k) =>
        AddDaysOrdinal(today.date, -(k as int));
        match AddDays(today.date, -(k as int))
        case None => Err(Overflow)
        case Some(d) =>
          var s: UtcTime := DateTime(d, 0, 0, 0, 0);
          var e: UtcTime := Midnight(today);
          Ok((s, e))
  }

  /** the parsed arguments `_get_start_end_dates` reads and overwrites */
  class Args {
    var startDate: Option<UtcTime>
    var endDate: Option<UtcTime>
    var daysBack: Option<nat>

    constructor (startDate: Option<UtcTime>, endDate: Option<UtcTime>, daysBack: Option<nat>)
      ensures this.startDate == startDate && this.endDate == endDate && this.daysBack == daysBack
    {
      this.startDate := startDate;
      this.endDate := endDate;
      this.daysBack := daysBack;
    }

    /** `_get_start_end_dates(args)`, `today` being `now(True)`: the bounds are written
      * back into the arguments and returned as `%Y-%m-%dT%H:%M:%SZ` text; the end is
      * written before the subtraction that can raise */
    method GetStartEndDates(today: UtcTime) returns (r: Result<(string, string), WindowError>)
      modifies this
      ensures daysBack == old(daysBack)
      ensures var w := Window(old(startDate), old(endDate), old(daysBack), today);
        && (w.Ok? ==> startDate == Some(w.value.0) && endDate == Some(w.value.1)
                      && r == Ok((IsoStampZ(w.value.0), IsoStampZ(w.value.1))))
        && (w.Err? ==> r == Err(w.error) && startDate == old(startDate)
                       && endDate.Some? && endDate.value == Midnight(today))
    {
      ghost var w := Window(startDate, endDate, daysBack, today);
      if startDate.Some? || endDate.Some? {
        if startDate.None? {
          startDate := Some(Earliest);
        }
        if endDate.None? {
          endDate := Some(Latest);
        }
        assert w == Ok((startDate.value, endDate.value));
      } else {
        var e: UtcTime := Midnight(today);
        endDate := Some(e);
        if daysBack.None? {
          assert w == Err(NoDaysBack);
          return Err(NoDaysBack);
        }
        var k := daysBack.value;
        AddDaysOrdinal(today.date, -(k as int));
        var d := AddDays(today.date, -(k as int));
        if d.None? {
          assert w == Err(Overflow);
          return Err(Overflow);
        }
        var s: UtcTime := DateTime(d.value, 0, 0, 0, 0);
        startDate := Some(s);
        assert w == Ok((s, e));
      }
      r := Ok((IsoStampZ(startDate.value), IsoStampZ(endDate.value)));
    }
  }

  /** a given bound is kept, and a missing one becomes 1900-01-01 or 3000-01-01 */
  lemma {:induction false} GivenBounds(start: Option<UtcTime>, end: Option<UtcTime>, daysBack: Option<nat>, today: UtcTime)
    requires start.Some? || end.Some?
    ensures var w := Window(start, end, daysBack, today);
      && w.Ok?
      && IsoStampZ(w.value.0) == (if start.Some? then IsoStampZ(start.value) else "1900-01-01T00:00:00Z")
      && IsoStampZ(w.value.1) == (if end.Some? then IsoStampZ(end.value) else "3000-01-01T00:00:00Z")
  {
    DefaultTexts();
  }

  lemma {:induction false} DefaultTexts()
    ensures IsoStampZ(Earliest) == "1900-01-01T00:00:00Z"
    ensures IsoStampZ(Latest) == "3000-01-01T00:00:00Z"
  {
    EarliestText();
    LatestText();
  }

  lemma {:induction false} EarliestText()
    ensures IsoStampZ(Earliest) == "1900-01-01T00:00:00Z"
  {
    TwoDigits();
    assert Digits(1, 1) == "1" && Digits(19, 2) == "19" && Digits(190, 3) == "190";
    assert Digits(1900, 4) == "1900";
    assert IsoDate(Earliest.date) == "1900-01-01";
  }

  lemma {:induction false} LatestText()
    ensures IsoStampZ(Latest) == "3000-01-01T00:00:00Z"
  {
    TwoDigits();
    assert Digits(3, 1) == "3" && Digits(30, 2) == "30" && Digits(300, 3) == "300";
    assert Digits(3000, 4) == "3000";
    assert IsoDate(Latest.date) == "3000-01-01";
  }

  lemma {:induction false} TwoDigits()
    ensures Digits(0, 2) == "00" && Digits(1, 2) == "01"
  {
    assert Digits(0, 1) == "0" && Digits(1, 1) == "1";
  }

  /** without bounds the window ends at today's midnight and spans exactly
    * `daysBack` days; it fails only without `--days-back` or before year 1 */
  lemma {:induction false} DaysBackWindow(daysBack: Option<nat>, today: UtcTime)
    ensures var w := Window(None, None, daysBack, today);
      w.Err? <==> daysBack.None? || daysBack.value >= Ordinal(today.date)
    ensures var w := Window(None, None, daysBack, today);
      w.Ok? ==> && w.value.1 == Midnight(today)
                && w.value.0 == Midnight(w.value.0)
                && Ordinal(w.value.1.date) - Ordinal(w.value.0.date) == daysBack.value
                && Micros(w.value.1) - Micros(w.value.0) == daysBack.value * 86400000000
  {
    if daysBack.Some? {
      AddDaysOrdinal(today.date, -(daysBack.value as int));
    }
  }

  // ------------------------------------------------ report flattening in main

  /** one acquisition date of a product's duplicate report: the counts, and the
    * `duplicate_products` list of each duplicate group in the report's order */
  datatype DateEntry = DateEntry(nGranules: int, nDuplicates: int, percent: real, groups: seq<seq<string>>)

  /** a product's report: `summary.n_granules` and the `dates` map in file order */
  datatype Report = Report(nGranules: int, dates: seq<(string, DateEntry)>)

  /** the report assumed when the sub-script wrote none */
  const EmptyReport := Report(0, [])

  /** an entry of `date_map` */
  datatype Counts = Counts(products: int, duplicates: int, percent: real)

  /** the groups' lists one after the other */
  function Concat(gs: seq<seq<string>>): seq<string>
  {
    if gs == [] then [] else Concat(gs[..|gs| - 1]) + gs[|gs| - 1]
  }

  /** every date's groups one after the other, in report order */
  function DatesConcat(ds: seq<(string, DateEntry)>): seq<string>
  {
    if ds == [] then [] else DatesConcat(ds[..|ds| - 1]) + Concat(ds[|ds| - 1].1.groups)
  }

  function CountsOf(e: DateEntry): Counts { Counts(e.nGranules, e.nDuplicates, e.percent) }

  /** `date_map`: a later entry for the same date replaces an earlier one */
  function DateMap(ds: seq<(string, DateEntry)>): map<string, Counts>
  {
    if ds == [] then map[] else DateMap(ds[..|ds| - 1])[ds[|ds| - 1].0 := CountsOf(ds[|ds| - 1].1)]
  }

  /** the loops over `report['dates']` in `main`: the sorted duplicates and the date map */
  method Flatten(report: Report) returns (duplicates: seq<string>, dateMap: map<string, Counts>)
    ensures duplicates == Sort(DatesConcat(report.dates))
    ensures dateMap == DateMap(report.dates)
  {
    var ds := report.dates;
    duplicates := [];
    dateMap := map[];
    for i := 0 to |ds|
      invariant duplicates == DatesConcat(ds[..i]) && dateMap == DateMap(ds[..i])
    {
      assert ds[..i + 1][..i] == ds[..i];
      var groups := ds[i].1.groups;
      ghost var before := duplicates;
      for j := 0 to |groups|
        invariant duplicates == before + Concat(groups[..j])
      {
        assert groups[..j + 1][..j] == groups[..j];
        duplicates := duplicates + groups[j];
      }
      assert groups[..|groups|] == groups;
      dateMap := dateMap[ds[i].0 := CountsOf(ds[i].1)];
    }
    assert ds[..|ds|] == ds;
    duplicates := Sort(duplicates);
  }

  /** an identifier is in some group's list of some date */
  ghost predicate Listed(ds: seq<(string, DateEntry)>, x: string)
  {
    exists i, j :: 0 <= i < |ds| && 0 <= j < |ds[i].1.groups| && x in ds[i].1.groups[j]
  }

  lemma {:induction false} ConcatMembers(gs: seq<seq<string>>, x: string)
    ensures x in Concat(gs) <==> exists j :: 0 <= j < |gs| && x in gs[j]
  {
    if gs != [] {
      var init := gs[..|gs| - 1];
      ConcatMembers(init, x);
      if x in Concat(init) {
        var j :| 0 <= j < |init| && x in init[j];
        assert gs[j] == init[j];
      }
      if exists j :: 0 <= j < |gs| && x in gs[j] {
        var j :| 0 <= j < |gs| && x in gs[j];
        if j < |init| { assert init[j] == gs[j]; }
      }
    }
  }

  lemma {:induction false} DatesConcatMembers(ds: seq<(string, DateEntry)>, x: string)
    ensures x in DatesConcat(ds) <==> Listed(ds, x)
  {
    if ds != [] {
      var init := ds[..|ds| - 1];
      var n := |ds| - 1;
      var last := ds[n].1.groups;
      assert DatesConcat(ds) == DatesConcat(init) + Concat(last);
      DatesConcatMembers(init, x);
      ConcatMembers(last, x);
      if Listed(init, x) {
        var i, j :| 0 <= i < |init| && 0 <= j < |init[i].1.groups| && x in init[i].1.groups[j];
        assert ds[i] == init[i];
        assert Listed(ds, x);
      }
      if x in Concat(last) {
        var j :| 0 <= j < |last| && x in last[j];
        assert Listed(ds, x);
      }
      if Listed(ds, x) {
        var i, j :| 0 <= i < |ds| && 0 <= j < |ds[i].1.groups| && x in ds[i].1.groups[j];
        if i < n {
          assert init[i] == ds[i];
          assert Listed(init, x);
        }
      }
    }
  }

  /** the flattened duplicates are sorted, hold every group's list with its repeats, and
    * nothing else */
  lemma {:induction false} FlattenSpec(ds: seq<(string, DateEntry)>, x: string)
    ensures Sorted(Sort(DatesConcat(ds)))
    ensures multiset(Sort(DatesConcat(ds))) == multiset(DatesConcat(ds))
    ensures x in Sort(DatesConcat(ds)) <==> Listed(ds, x)
  {
    SortSorted(DatesConcat(ds));
    DatesConcatMembers(ds, x);
    assert x in Sort(DatesConcat(ds)) <==> x in multiset(DatesConcat(ds));
  }

  /** the date map has one entry per date of the report */
  lemma {:induction false} DateMapKeys(ds: seq<(string, DateEntry)>)
    ensures DateMap(ds).Keys == set i | 0 <= i < |ds| :: ds[i].0
  {
    if ds != [] {
      var init := ds[..|ds| - 1];
      DateMapKeys(init);
      assert forall i :: 0 <= i < |init| ==> init[i] == ds[i];
      assert (set i | 0 <= i < |ds| :: ds[i].0) == (set i | 0 <= i < |init| :: init[i].0) + {ds[|ds| - 1].0};
    }
  }

  /** a date's entry in the map holds the counts of its last occurrence in the report */
  lemma {:induction false} DateMapValue(ds: seq<(string, DateEntry)>, i: nat)
    requires i < |ds| && forall j :: i < j < |ds| ==> ds[j].0 != ds[i].0
    ensures ds[i].0 in DateMap(ds) && DateMap(ds)[ds[i].0] == CountsOf(ds[i].1)
  {
    var init := ds[..|ds| - 1];
    if i < |init| {
      assert forall j :: i < j < |init| ==> init[j] == ds[j];
      DateMapValue(init, i);
      assert init[i] == ds[i];
    }
  }

  /** `len(duplicates) / n_granules * 100`, or 0 for a report without granules */
  function Percent(duplicates: nat, nGranules: int): (p: real)
    ensures nGranules <= 0 ==> p == 0.0
    ensures nGranules > 0 && duplicates <= nGranules ==> 0.0 <= p <= 100.0
  {
    if nGranules > 0 then duplicates as real / nGranules as real * 100.0 else 0.0
  }

  /** `plot_data['product_counts'][product]` */
  function ProductCounts(report: Report, duplicates: seq<string>): Counts
  {
    Counts(report.nGranules, |duplicates|, Percent(|duplicates|, report.nGranules))
  }

  // ----------------------------------------------------- the plot-data series

  /** one run's `plot_data`; only its `date` (the run's day) matters to the series */
  datatype PlotData = PlotData(date: string, startDate: string, endDate: string, venue: string,
                               productCounts: map<string, Counts>, dateMaps: map<string, map<string, Counts>>)

  function DateOf(p: PlotData): string { p.date }

  /** `list.pop(i)` */
  function RemoveAt<T>(s: seq<T>, i: nat): (r: seq<T>)
    requires i < |s|
    ensures |r| == |s| - 1
  {
    s[..i] + s[i + 1..]
  }

  /** `for i in range(n): if ts[i]['date'] == today: ts.pop(i)` from index `i` on: the
    * range is fixed before the loop, so each pop shifts later entries under indices
    * already visited, and an index past the shortened list raises `IndexError` */
  function PopFrom(ts: seq<PlotData>, i: nat, n: nat, today: string): Option<seq<PlotData>>
    decreases n - i
  {
    if i >= n then Some(ts)
    else if i >= |ts| then None
    else if ts[i].date == today then PopFrom(RemoveAt(ts, i), i + 1, n, today)
    else PopFrom(ts, i + 1, n, today)
  }

  /** the series update of `main` as written; None is the `IndexError` */
  function MergeAsWritten(existing: seq<PlotData>, record: PlotData, plotLength: nat): Option<seq<PlotData>>
  {
    var ts := existing + [record];
    match PopFrom(ts, 0, |ts| - 1, record.date)
    case None => None
    case Some(kept) => Some(SortBy(kept[..if plotLength < |kept| then plotLength else |kept|], DateOf, false))
  }

  /** the loop and slicing of `main` as they are written */
  method MergeTimeseriesAsWritten(existing: seq<PlotData>, record: PlotData, plotLength: nat)
    returns (r: Option<seq<PlotData>>)
    ensures r == MergeAsWritten(existing, record, plotLength)
  {
    var ts := existing + [record];
    var n := |ts| - 1;
    for i := 0 to n
      invariant PopFrom(existing + [record], 0, n, record.date) == PopFrom(ts, i, n, record.date)
    {
      if i >= |ts| {
        return None;
      }
      if ts[i].date == record.date {
        ts := RemoveAt(ts, i);
      }
    }
    var m := if plotLength < |ts| then plotLength else |ts|;
    r := Some(SortBy(ts[..m], DateOf, false));
  }

  /** once the series holds `plot_length` earlier runs, the slice keeps the oldest
    * entries and drops the run just made */
  lemma {:induction false} FullSeriesDropsNew(a: PlotData, record: PlotData)
    requires a.date != record.date && a != record
    ensures MergeAsWritten([a], record, 1) == Some([a])
  {
    var ts := [a] + [record];
    assert PopFrom(ts, 0, 1, record.date) == PopFrom(ts, 1, 1, record.date) == Some(ts);
    assert ts[..1] == [a];
    SortByOne(a, DateOf, false);
  }

  /** an earlier entry of the same day ahead of another shifts the new run under the
    * loop's last index, so the new run is popped as well */
  lemma {:induction false} PopDropsNew(t: PlotData, x: PlotData, record: PlotData)
    requires t.date == record.date && x.date != record.date
    ensures MergeAsWritten([t, x], record, 10) == Some([x])
  {
    var ts := [t, x] + [record];
    assert RemoveAt(ts, 0) == [x, record];
    assert RemoveAt([x, record], 1) == [x];
    assert PopFrom(ts, 0, 2, record.date) == PopFrom([x, record], 1, 2, record.date);
    assert PopFrom([x, record], 1, 2, record.date) == PopFrom([x], 2, 2, record.date);
    assert [x][..1] == [x];
    SortByOne(x, DateOf, false);
  }

  /** the earlier entries of other days */
  function OtherDays(s: seq<PlotData>, today: string): seq<PlotData>
  {
    if s == [] then []
    else OtherDays(s[..|s| - 1], today) + (if s[|s| - 1].date != today then [s[|s| - 1]] else [])
  }

  lemma {:induction false} OtherDaysMembers(s: seq<PlotData>, today: string, p: PlotData)
    ensures p in OtherDays(s, today) <==> p in s && p.date != today
  {
    if s != [] {
      OtherDaysMembers(s[..|s| - 1], today, p);
      assert s == s[..|s| - 1] + [s[|s| - 1]];
    }
  }

  /** the last `n` entries, or all of them when there are fewer (`s[-n:]` for `n >= 1`) */
  function LastOf<T>(s: seq<T>, n: nat): (r: seq<T>)
    ensures |r| <= n && |r| <= |s|
    ensures s != [] && n >= 1 ==> r != [] && r[|r| - 1] == s[|s| - 1]
    ensures forall x :: x in r ==> x in s
  {
    if n < |s| then s[|s| - n..] else s
  }

  /** the last `n` entries of `s + [x]` are the last `n - 1` of `s`, then `x` */
  lemma {:induction false} LastOfSnoc<T>(s: seq<T>, x: T, n: nat)
    requires n >= 1
    ensures LastOf(s + [x], n) == LastOf(s, n - 1) + [x]
  {
    if n < |s| + 1 {
      assert (s + [x])[|s| + 1 - n..] == s[|s| - (n - 1)..] + [x];
    }
  }

  /** the update the series evidently wants: earlier entries of the run's day are
    * replaced by the new run, and the newest `plot_length` entries are kept, by date */
  function Merge(existing: seq<PlotData>, record: PlotData, plotLength: nat): seq<PlotData>
  {
    SortBy(LastOf(OtherDays(existing, record.date) + [record], plotLength), DateOf, false)
  }

  /** `main`'s series update with the loop removing earlier entries of the day and the
    * slice keeping the last `plot_length` entries */
  method MergeTimeseries(existing: seq<PlotData>, record: PlotData, plotLength: nat) returns (r: seq<PlotData>)
    ensures r == Merge(existing, record, plotLength)
  {
    var kept: seq<PlotData> := [];
    for i := 0 to |existing|
      invariant kept == OtherDays(existing[..i], record.date)
    {
      assert existing[..i + 1][..i] == existing[..i];
      if existing[i].date != record.date {
        kept := kept + [existing[i]];
      }
    }
    assert existing[..|existing|] == existing;
    kept := kept + [record];
    if plotLength < |kept| {
      kept := kept[|kept| - plotLength..];
    }
    r := SortBy(kept, DateOf, false);
  }

  /** the merged series is sorted by date and holds at most `plot_length` entries */
  lemma {:induction false} MergeSorted(existing: seq<PlotData>, record: PlotData, plotLength: nat)
    ensures SortedBy(Merge(existing, record, plotLength), DateOf, false)
    ensures |Merge(existing, record, plotLength)| <= plotLength
  {
    SortBySorted(LastOf(OtherDays(existing, record.date) + [record], plotLength), DateOf, false);
  }

  /** the merged series always holds the new run, and otherwise only earlier runs of
    * other days: exactly the newest `plot_length - 1` of them, so it holds
    * `plot_length` runs, or every such run and the new one when there are fewer */
  lemma {:induction false} MergeMembers(existing: seq<PlotData>, record: PlotData, plotLength: nat, p: PlotData)
    requires plotLength >= 1
    ensures record in Merge(existing, record, plotLength)
    ensures p in Merge(existing, record, plotLength) ==> p == record || (p in existing && p.date != record.date)
    ensures multiset(Merge(existing, record, plotLength))
            == multiset(LastOf(OtherDays(existing, record.date), plotLength - 1)) + multiset{record}
    ensures var others := |OtherDays(existing, record.date)|;
      |Merge(existing, record, plotLength)| == if plotLength < others + 1 then plotLength else others + 1
  {
    var kept := OtherDays(existing, record.date) + [record];
    var tail := LastOf(kept, plotLength);
    LastOfSnoc(OtherDays(existing, record.date), record, plotLength);
    assert record in multiset(tail);
    assert p in multiset(Merge(existing, record, plotLength)) <==> p in multiset(tail);
    if p in tail {
      assert p in kept;
      OtherDaysMembers(existing, record.date, p);
    }
  }

  // ------------------------------------------------- days of the count plots

  /** the last day on a count plot: the end's own day, or the day before when the end
    * is exactly midnight (None where that day would fall before year 1) */
  function LastPlotDay(end: UtcTime): (r: Option<Date>)
    ensures r.Some? ==> ValidDate(r.value)
  {
    PrevDayOrdinal(end.date);
    if Micros(end) > Micros(Midnight(end)) then Some(end.date) else PrevDay(end.date)
  }

  /** `strftime('%Y-%m-%d')` of every day from `d` through the day numbered `last`;
    * stepping past 9999-12-31 raises `OverflowError` */
  function DaysFrom(d: Date, last: int): Result<seq<string>, WindowError>
    requires ValidDate(d)
    decreases last - Ordinal(d)
  {
    if Ordinal(d) > last then Ok([])
    else
      NextDayOrdinal(d);
      match NextDay(d)
      case None => Err(Overflow)
      case Some(e) => Prepend([IsoDate(d)], DaysFrom(e, last))
  }

  /** the acquisition days of `plot_data_and_save`, from the start's day to the last day */
  function PlotRange(start: UtcTime, end: UtcTime): Result<seq<string>, WindowError>
  {
    match LastPlotDay(end)
    case None => Err(Overflow)
    case Some(l) => DaysFrom(start.date, Ordinal(l))
  }

  /** the `while date <= end_date` loop of `plot_data_and_save` */
  method ReportDays(start: UtcTime, end: UtcTime) returns (r: Result<seq<string>, WindowError>)
    ensures r == PlotRange(start, end)
  {
    var last := LastPlotDay(end);
    if last.None? {
      return Err(Overflow);
    }
    var l := Ordinal(last.value);
    var d := start.date;
    var days: seq<string> := [];
    PrependAssoc([], [], DaysFrom(d, l));
    while Ordinal(d) <= l
      invariant ValidDate(d)
      invariant PlotRange(start, end) == Prepend(days, DaysFrom(d, l))
      decreases l - Ordinal(d)
    {
      NextDayOrdinal(d);
      var next := NextDay(d);
      if next.None? {
        return Err(Overflow);
      }
      PrependAssoc(days, [IsoDate(d)], DaysFrom(next.value, l));
      days := days + [IsoDate(d)];
      d := next.value;
    }
    assert days + [] == days;
    r := Ok(days);
  }

  /** the run fails exactly when it has to step past 9999-12-31 */
  lemma {:induction false} DaysFromFails(d: Date, last: int)
    requires ValidDate(d)
    ensures DaysFrom(d, last).Err? <==> Ordinal(d) <= last && last >= MaxOrdinal
    decreases last - Ordinal(d)
  {
    NextDayOrdinal(d);
    OrdinalBounds(d);
    if Ordinal(d) <= last {
      match NextDay(d) {
        case None =>
          assert DaysFrom(d, last) == Err(Overflow);
        case Some(e) =>
          OrdinalBounds(e);
          DaysFromFails(e, last);
          assert DaysFrom(d, last) == Prepend([IsoDate(d)], DaysFrom(e, last));
      }
    }
  }

  /** the days run one by one from `d`: there are as many as the range holds, and the
    * `k`-th is `k` days after `d` */
  lemma {:induction false} DaysFromDays(d: Date, last: int)
    requires ValidDate(d) && DaysFrom(d, last).Ok?
    ensures var s := DaysFrom(d, last).value;
      && |s| == (if last < Ordinal(d) then 0 else last - Ordinal(d) + 1)
      && forall k :: 0 <= k < |s| ==>
           AddDays(d, k).Some? && ValidDate(AddDays(d, k).value) && s[k] == IsoDate(AddDays(d, k).value)
    decreases last - Ordinal(d)
  {
    NextDayOrdinal(d);
    if Ordinal(d) <= last {
      var e := NextDay(d).value;
      DaysFromDays(e, last);
      var s := DaysFrom(d, last).value;
      var t := DaysFrom(e, last).value;
      assert s == [IsoDate(d)] + t;
      forall k | 0 <= k < |s|
        ensures AddDays(d, k).Some? && ValidDate(AddDays(d, k).value) && s[k] == IsoDate(AddDays(d, k).value)
      {
        if k == 0 {
          AddDaysIs(d, 0, d);
        } else {
          assert s[k] == t[k - 1];
          StepAdd(d, e, k);
        }
      }
    }
  }

  /** `k` days after `d` is `k - 1` days after the next day */
  lemma {:induction false} StepAdd(d: Date, e: Date, k: int)
    requires ValidDate(d) && ValidDate(e) && Ordinal(e) == Ordinal(d) + 1
    ensures AddDays(d, k) == AddDays(e, k - 1)
  {
    AddDaysOrdinal(e, k - 1);
    AddDaysOrdinal(d, k);
    if AddDays(e, k - 1).Some? {
      AddDaysIs(d, k, AddDays(e, k - 1).value);
    }
  }

  /** `days` of `plot_data_and_save`: the product's dates and the report's range,
    * without repeats, sorted */
  method PlotDays(start: UtcTime, end: UtcTime, productDates: seq<string>) returns (r: Result<seq<string>, WindowError>)
    ensures PlotRange(start, end).Err? ==> r == Err(PlotRange(start, end).error)
    ensures PlotRange(start, end).Ok? ==>
      && r.Ok?
      && StrictlySorted(r.value)
      && forall x :: x in r.value <==> x in productDates || x in PlotRange(start, end).value
  {
    var range := ReportDays(start, end);
    if range.Err? {
      return Err(range.error);
    }
    r := Ok(SortedSet(productDates + range.value));
  }

  // ----------------------------------------------- record_dswx_hls_accountability

  /** what the accountability step produces for the DSWx-HLS report: nothing when
    * `counts_by_date` is empty, else the expected plot name, the text report's name,
    * its sorted lines and the missing count */
  datatype AccountabilityFiles = NoData | Files(plot: string, report: string, lines: seq<string>, missing: nat)

  /** the day part of each `counts_by_date` key, in sorted key order */
  function KeyDays(keys: seq<string>): (days: seq<string>)
    ensures |days| == |keys|
  {
    var sorted := Sort(keys);
    seq(|sorted|, i requires 0 <= i < |sorted| => DswxHlsMap.DayText(sorted[i]))
  }

  /** the file names and lines of `record_dswx_hls_accountability` */
  function Accountability(keys: seq<string>, hlsMissing: seq<string>): (r: AccountabilityFiles)
    ensures r.NoData? <==> keys == []
    ensures r.Files? ==> r.missing == |hlsMissing| && multiset(r.lines) == multiset(hlsMissing)
    ensures r.Files? ==> Sorted(r.lines)
  {
    SortSorted(hlsMissing);
    var days := KeyDays(keys);
    if |days| == 0 then NoData
    else
      var first := days[0];
      var last := days[|days| - 1];
      var plot := if |days| > 1 then "dswx_hls_accountability_" + first + "_to_" + last + ".png"
                  else "dswx_hls_accountability_" + first + ".png";
      Files(plot, "OPERA_DSWx_HLS_accountability_" + first + "_to_" + last + ".txt", Sort(hlsMissing), |hlsMissing|)
  }

  /** the first and last of the sorted keys are a least and a greatest key */
  lemma {:induction false} SortEnds(keys: seq<string>)
    requires keys != []
    ensures |Sort(keys)| == |keys|
    ensures Sort(keys)[0] in keys && Sort(keys)[|keys| - 1] in keys
    ensures forall x :: x in keys ==> LexLe(Sort(keys)[0], x) && LexLe(x, Sort(keys)[|keys| - 1])
  {
    var sorted := Sort(keys);
    SortSorted(keys);
    assert multiset(sorted) == multiset(keys);
    assert |sorted| == |keys|;
    assert sorted[0] in multiset(keys) && sorted[|sorted| - 1] in multiset(keys);
    forall x | x in keys ensures LexLe(sorted[0], x) && LexLe(x, sorted[|sorted| - 1]) {
      assert x in multiset(sorted);
      var m :| 0 <= m < |sorted| && sorted[m] == x;
      if m > 0 { assert LexLe(sorted[0], sorted[m]); }
      if m < |sorted| - 1 { assert LexLe(sorted[m], sorted[|sorted| - 1]); }
    }
  }

  /** one day names the plot after that day alone and the report after the range from
    * it to itself; several days name the plot and the report after the range from a
    * least to a greatest key; the missing granules do not affect the names */
  lemma {:induction false} AccountabilityNames(keys: seq<string>, hlsMissing: seq<string>)
    requires keys != []
    ensures |keys| == 1 ==>
      && Accountability(keys, hlsMissing).plot == "dswx_hls_accountability_" + DswxHlsMap.DayText(keys[0]) + ".png"
      && Accountability(keys, hlsMissing).report
         == "OPERA_DSWx_HLS_accountability_" + DswxHlsMap.DayText(keys[0]) + "_to_" + DswxHlsMap.DayText(keys[0]) + ".txt"
    ensures |keys| > 1 ==> exists lo, hi ::
      && lo in keys && hi in keys
      && (forall x :: x in keys ==> LexLe(lo, x) && LexLe(x, hi))
      && Accountability(keys, hlsMissing).plot
         == "dswx_hls_accountability_" + DswxHlsMap.DayText(lo) + "_to_" + DswxHlsMap.DayText(hi) + ".png"
      && Accountability(keys, hlsMissing).report
         == "OPERA_DSWx_HLS_accountability_" + DswxHlsMap.DayText(lo) + "_to_" + DswxHlsMap.DayText(hi) + ".txt"
  {
    SortEnds(keys);
    var sorted := Sort(keys);
    if |keys| == 1 {
      assert sorted[0] == keys[0];
    } else {
      var lo, hi := sorted[0], sorted[|keys| - 1];
      assert Accountability(keys, hlsMissing).plot
        == "dswx_hls_accountability_" + DswxHlsMap.DayText(lo) + "_to_" + DswxHlsMap.DayText(hi) + ".png";
      assert Accountability(keys, hlsMissing).report
        == "OPERA_DSWx_HLS_accountability_" + DswxHlsMap.DayText(lo) + "_to_" + DswxHlsMap.DayText(hi) + ".txt";
    }
  }

  /** a key made by `_format_facet_date` names its plot after the ISO day it was made from */
  lemma {:induction false} FacetKeyName(d: DswxHlsMap.Day)
    ensures Accountability([DswxHlsMap.FacetDate(d)], []).plot == "dswx_hls_accountability_" + IsoDate(d) + ".png"
  {
    AccountabilityNames([DswxHlsMap.FacetDate(d)], []);
    DswxHlsMap.FacetDay(d);
  }
}
