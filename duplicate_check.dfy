/** The stand-alone duplicate checker: the table of product patterns, the
  * CMR listing with its first-granule pattern check, and the main loop that
  * buckets granules by the month of their aggregation timestamp, counts a
  * granule as a duplicate when its unique-group key was seen before and
  * lists each duplicated key's identifiers per month (ranked by creation
  * timestamp afterwards for products that have one). */
module DuplicateCheck {
  import opened Base
  import opened Calendar
  import opened Identifiers
  import Duplicates

  /** one entry of `PRODUCTS`: the pattern, `UNIQUE_GROUPS`, `AGG_TS_GROUP`,
    * `AGG_TS_FORMAT` and, when present, `CREATE_TS_GROUP` */
  datatype ProductSpec = ProductSpec(
    pattern: seq<Item>,
    uniqueGroups: seq<string>,
    aggGroup: string,
    aggFormat: Duplicates.AggFormat,
    createGroup: Option<string>)

  // ------------------------------------------------------ the product table

  function CslcPattern(): seq<Item>
  {
    [Lit("OPERA_L2_CSLC-S1_"), Fixed("burst_id", BurstClasses()), Lit("_"),
     Fixed("acquisition_ts", StampClasses()), Lit("_"), Fixed("creation_ts", StampClasses()), Lit("_"),
     Fixed("sensor", S1Classes()), Lit("_"), Choice("pol", Pols()), Lit("_")] + Version()
  }

  function RtcPattern(): seq<Item>
  {
    [Lit("OPERA_L2_RTC-S1_"), Fixed("burst_id", BurstClasses()), Lit("_"),
     Fixed("acquisition_ts", StampClasses()), Lit("_"), Fixed("creation_ts", StampClasses()), Lit("_"),
     Fixed("sensor", S1Classes()), Lit("_30_")] + Version()
  }

  function CslcStaticPattern(): seq<Item>
  {
    [Lit("OPERA_L2_CSLC-S1-STATIC_"), Fixed("burst_id", BurstClasses()), Lit("_"),
     Fixed("validity_ts", Times(8, Digit)), Lit("_"), Fixed("sensor", S1Classes()), Lit("_")] + Version()
  }

  function RtcStaticPattern(): seq<Item>
  {
    [Lit("OPERA_L2_RTC-S1-STATIC_"), Fixed("burst_id", BurstClasses()), Lit("_"),
     Fixed("validity_ts", Times(8, Digit)), Lit("_"), Fixed("sensor", S1Classes()), Lit("_30_")] + Version()
  }

  function DswxS1Pattern(): seq<Item>
  {
    [Lit("OPERA_L3_DSWx-S1_"), Fixed("tile_id", TileClasses()), Lit("_"),
     Fixed("acquisition_ts", StampClasses()), Lit("_"), Fixed("creation_ts", StampClasses()), Lit("_"),
     Fixed("sensor", S1Classes()), Lit("_30_")] + Version()
  }

  function DispPattern(): seq<Item>
  {
    [Lit("OPERA_L3_DISP-S1_IW_"), Fixed("frame_id", [OneOf("F")] + Times(5, Digit)), Lit("_"),
     Choice("pol", Pols()), Lit("_"), Fixed("ref_datetime", StampClasses()), Lit("_"),
     Fixed("sec_datetime", StampClasses()), Lit("_")] + Version() + [Lit("_"), Fixed("creation_ts", StampClasses())]
  }

  function TropoPattern(): seq<Item>
  {
    [Lit("OPERA_L4_TROPO-ZENITH_"), Fixed("acquisition_ts", StampClasses()), Lit("_"),
     Fixed("creation_ts", StampClasses()), Lit("_"), Lazy("model"), Lit("_")] + Version()
  }

  /** the optional `([.]\d+)?` after the major version never decides a prefix match */
  function DistAlertPattern(): seq<Item>
  {
    [Lit("OPERA_L3_DIST-ALERT-HLS_"), Fixed("tile_id", TileClasses()), Lit("_"),
     Fixed("acquisition_ts", StampClasses()), Lit("_"), Fixed("creation_ts", StampClasses()), Lit("_"),
     Choice("sensor", Sensors()), Lit("_30_v"), Digits]
  }

  const ProductNames: seq<string> :=
    ["DSWX_HLS", "CSLC_S1", "RTC_S1", "CSLC_S1_STATIC", "RTC_S1_STATIC", "DSWX_S1", "DISP_S1", "TROPO", "DIST_ALERT_HLS"]

  /** `PRODUCTS[name]` */
  function Products(name: string): (r: Option<ProductSpec>)
    ensures r.Some? <==> name in ProductNames
  {
    var stamp := Duplicates.StampLayout;
    var created := Some("creation_ts");
    if name == "DSWX_HLS" then
      Some(ProductSpec(DswxHlsPattern(), ["tile_id", "acquisition_ts", "sensor"], "acquisition_ts", stamp, created))
    else if name == "CSLC_S1" then
      Some(ProductSpec(CslcPattern(), ["burst_id", "acquisition_ts", "sensor", "pol"], "acquisition_ts", stamp, created))
    else if name == "RTC_S1" then
      Some(ProductSpec(RtcPattern(), ["burst_id", "acquisition_ts", "sensor"], "acquisition_ts", stamp, created))
    else if name == "CSLC_S1_STATIC" then
      Some(ProductSpec(CslcStaticPattern(), ["burst_id", "validity_ts", "sensor"], "validity_ts", Duplicates.DateLayout, None))
    else if name == "RTC_S1_STATIC" then
      Some(ProductSpec(RtcStaticPattern(), ["burst_id", "validity_ts", "sensor"], "validity_ts", Duplicates.DateLayout, None))
    else if name == "DSWX_S1" then
      Some(ProductSpec(DswxS1Pattern(), ["tile_id", "acquisition_ts", "sensor"], "acquisition_ts", stamp, created))
    else if name == "DISP_S1" then
      Some(ProductSpec(DispPattern(), ["frame_id", "pol", "ref_datetime", "sec_datetime"], "creation_ts", stamp, created))
    else if name == "TROPO" then
      Some(ProductSpec(TropoPattern(), ["acquisition_ts", "model"], "acquisition_ts", stamp, created))
    else if name == "DIST_ALERT_HLS" then
      Some(ProductSpec(DistAlertPattern(), ["tile_id", "acquisition_ts", "sensor"], "acquisition_ts", stamp, created))
    else None
  }

  // ------------------------------------------------------------ retrying

  /** `_fatal_code`: the HTTP statuses on which the query gives up instead of retrying */
  predicate Fatal(status: int)
  {
    status !in [401, 418, 429, 500, 502, 503, 504]
  }

  // ------------------------------------------------------------ the query

  /** `strftime('%Y-%m-%dT%H:%M:%SZ') if bound is not None else ''` */
  function BoundText(t: Option<DateTime>): (r: string)
    requires t.Some? ==> ValidDateTime(t.value)
    ensures ',' !in r
    ensures t.None? <==> r == ""
  {
    match t
    case None => ""
    case Some(v) =>
      var r := IsoStampZ(v);
      assert r[4] == '-';
      r
  }

  /** the query parameters of `get_granule_ids_from_cmr` */
  function QueryParams(ccid: string, start: Option<DateTime>, end: Option<DateTime>, temporal: bool): (r: seq<(string, string)>)
    requires start.Some? ==> ValidDateTime(start.value)
    requires end.Some? ==> ValidDateTime(end.value)
  {
    var base := [("collection_concept_id", ccid), ("page_size", "2000")];
    if start.None? && end.None? then base
    else base + [(if temporal then "temporal[]" else "revision_date[]", BoundText(start) + "," + BoundText(end))]
  }

  /** one answer of the search service: the granule URs and the `CMR-Search-After` header */
  datatype Page = Page(ids: seq<string>, after: Option<string>)

  /** the pages are read until one carries no search-after token */
  predicate Ends(pages: seq<Page>) { pages != [] && pages[|pages| - 1].after.None? }

  /** the identifiers collected from page `i` on */
  function FetchedFrom(pages: seq<Page>, i: nat): seq<string>
    requires i < |pages| && Ends(pages)
    decreases |pages| - i
  {
    if pages[i].after.None? then pages[i].ids else pages[i].ids + FetchedFrom(pages, i + 1)
  }

  datatype Failure =
    | FirstMismatch(id: string)          // the `ValueError` of the first-page check
    | Unparsed(id: string)               // the `RuntimeError` of the main loop
    | MissingGroup(id: string, group: string) // `KeyError` on a group the pattern does not define
    | BadTime(id: string, value: string) // `ValueError` from `strptime`

  /** `get_granule_ids_from_cmr`: everything listed, or the first page's check failing */
  function Fetch(pattern: seq<Item>, pages: seq<Page>): Result<seq<string>, Failure>
    requires Ends(pages)
  {
    var first := pages[0].ids;
    if first != [] && Match(pattern, first[0], 0).None? then Err(FirstMismatch(first[0]))
    else Ok(FetchedFrom(pages, 0))
  }

  method GetGranuleIds(pattern: seq<Item>, pages: seq<Page>) returns (r: Result<seq<string>, Failure>)
    requires Ends(pages)
    ensures r == Fetch(pattern, pages)
  {
    var granules := pages[0].ids;
    var after := pages[0].after;
    if granules != [] && Match(pattern, granules[0], 0).None? {
      return Err(FirstMismatch(granules[0]));
    }
    var i := 1;
    while after.Some?
      invariant 1 <= i <= |pages|
      invariant after == pages[i - 1].after
      invariant after.Some? ==> i < |pages| && granules + FetchedFrom(pages, i) == FetchedFrom(pages, 0)
      invariant after.None? ==> granules == FetchedFrom(pages, 0)
      decreases |pages| - i
    {
      var page := pages[i];
      assert granules + FetchedFrom(pages, i) == granules + page.ids + (if page.after.None? then [] else FetchedFrom(pages, i + 1));
      granules := granules + page.ids;
      after := page.after;
      i := i + 1;
    }
    r := Ok(granules);
  }

  // ------------------------------------------------------------ the main loop

  /** one `granule_month_map` entry: `n_granules`, `n_duplicates` and the
    * `duplicates` lists with their keys in insertion order */
  datatype Month = Month(granules: nat, duplicates: nat, groups: map<seq<string>, seq<string>>, keys: seq<seq<string>>)

  /** the loop's state: `granule_month_map` (with its keys in insertion order) and `unique_granules` */
  datatype Tally = Tally(months: map<string, Month>, order: seq<string>, first: map<seq<string>, string>)

  const Empty := Tally(map[], [], map[])

  /** every list the report is built from exists and is non-empty */
  predicate Shaped(s: Tally)
  {
    forall m :: m in s.order ==> (m in s.months &&
      forall k :: k in s.months[m].keys ==> k in s.months[m].groups && s.months[m].groups[k] != [])
  }

  /** the month bucket: `strptime(...).strftime('%Y-%m')` */
  function MonthOf(p: ProductSpec, f: Fields, id: string): (r: Result<string, Failure>)
    ensures r.Ok? ==> |r.value| == 7
  {
    if p.aggGroup !in f then Err(MissingGroup(id, p.aggGroup))
    else match Duplicates.ParseAgg(p.aggFormat, f[p.aggGroup])
      case None => Err(BadTime(id, f[p.aggGroup]))
      case Some(t) => Ok(YearMonth(t.date))
  }

  /** the unique-group tuple */
  function KeyOf(p: ProductSpec, f: Fields, id: string): (r: Result<seq<string>, Failure>)
    ensures r.Ok? <==> Duplicates.GroupKey(p.uniqueGroups, f, id).Ok?
  {
    match Duplicates.GroupKey(p.uniqueGroups, f, id)
    case Ok(k) => Ok(k)
    case Err(e) => Err(MissingGroup(id, e.field))
  }

  /** a repeated key: the granule is counted as a duplicate and appended to
    * its key's list, which starts with the key's first granule */
  function Appended(r: Month, k: seq<string>, head: string, id: string): Month
  {
    if k in r.groups then Month(r.granules + 1, r.duplicates + 1, r.groups[k := r.groups[k] + [id]], r.keys)
    else Month(r.granules + 1, r.duplicates + 1, r.groups[k := [head, id]], r.keys + [k])
  }

  /** one iteration of the loop over `granule_ids` */
  function Step(p: ProductSpec, s: Tally, id: string): (r: Result<Tally, Failure>)
    ensures Shaped(s) && r.Ok? ==> Shaped(r.value)
  {
    match Match(p.pattern, id, 0)
    case None => Err(Unparsed(id))
    case Some(f) =>
      match MonthOf(p, f, id)
      case Err(e) => Err(e)
      case Ok(m) =>
        var row := if m in s.months then s.months[m] else Month(0, 0, map[], []);
        var order := if m in s.months then s.order else s.order + [m];
        match KeyOf(p, f, id)
        case Err(e) => Err(e)
        case Ok(k) =>
          if k in s.first then Ok(Tally(s.months[m := Appended(row, k, s.first[k], id)], order, s.first))
          else Ok(Tally(s.months[m := row.(granules := row.granules + 1)], order, s.first[k := id]))
  }

  function Run(p: ProductSpec, ids: seq<string>): (r: Result<Tally, Failure>)
    ensures r.Ok? ==> Shaped(r.value)
  {
    if ids == [] then Ok(Empty)
    else match Run(p, ids[..|ids| - 1])
      case Err(e) => Err(e)
      case Ok(s) => Step(p, s, ids[|ids| - 1])
  }

  // ------------------------------------------------------------ the report

  /** a `duplicates` entry as reported: the list itself, or, for a product
    * with a creation group, `latest_product` and `duplicate_products` */
  datatype Group = Listed(key: seq<string>, ids: seq<string>) | Ranked(key: seq<string>, latest: string, rest: seq<string>)

  datatype MonthRow = MonthRow(month: string, granules: nat, duplicates: nat, groups: seq<Group>)

  /** the final report: the summary (`min`/`max` only when there are duplicates)
    * and the months in sorted order */
  datatype CheckReport = CheckReport(
    granules: nat, duplicates: int, counts: seq<int>, minPerGranule: Option<int>, maxPerGranule: Option<int>,
    months: seq<MonthRow>)

  /** the sort key: the creation group of a listed (hence matched) identifier */
  function CreationIn(p: ProductSpec, id: string): string
  {
    match Match(p.pattern, id, 0)
    case None => ""
    case Some(f) => if p.createGroup.Some? && p.createGroup.value in f then f[p.createGroup.value] else ""
  }

  function CreationKey(p: ProductSpec): string -> string { (x: string) => CreationIn(p, x) }

  /** `sort(key=creation, reverse=True)` then the head and the tail */
  function Rank(p: ProductSpec, k: seq<string>, ids: seq<string>): (g: Group)
    requires ids != []
    ensures g.key == k
  {
    if p.createGroup.None? then Listed(k, ids)
    else
      var sorted := SortBy(ids, CreationKey(p), true);
      Ranked(k, sorted[0], sorted[1..])
  }

  function GroupRows(p: ProductSpec, keys: seq<seq<string>>, groups: map<seq<string>, seq<string>>): (r: seq<Group>)
    requires forall k :: k in keys ==> k in groups && groups[k] != []
    ensures |r| == |keys| && forall i :: 0 <= i < |keys| ==> r[i] == Rank(p, keys[i], groups[keys[i]])
  {
    if keys == [] then [] else [Rank(p, keys[0], groups[keys[0]])] + GroupRows(p, keys[1..], groups)
  }

  /** a report row shows its month's counters */
  predicate Mirrors(months: map<string, Month>, m: string, row: MonthRow)
  {
    m in months && row.month == m && row.granules == months[m].granules && row.duplicates == months[m].duplicates
  }

  function MonthRows(p: ProductSpec, ms: seq<string>, months: map<string, Month>): (r: seq<MonthRow>)
    requires forall m :: m in ms ==> (m in months &&
      forall k :: k in months[m].keys ==> k in months[m].groups && months[m].groups[k] != [])
    ensures |r| == |ms|
    ensures forall i :: 0 <= i < |ms| ==> Mirrors(months, ms[i], r[i])
    ensures forall i :: 0 <= i < |ms| ==>
      r[i] == MonthRow(ms[i], months[ms[i]].granules, months[ms[i]].duplicates, GroupRows(p, months[ms[i]].keys, months[ms[i]].groups))
  {
    if ms == [] then []
    else
      var row := months[ms[0]];
      [MonthRow(ms[0], row.granules, row.duplicates, GroupRows(p, row.keys, row.groups))] + MonthRows(p, ms[1..], months)
  }

  /** how many duplicates a reported entry stands for */
  function Excess(g: Group): int
  {
    match g
    case Listed(_, ids) => |ids| - 1
    case Ranked(_, _, rest) => |rest|
  }

  function GroupCounts(gs: seq<Group>): (r: seq<int>)
    ensures |r| == |gs| && forall i :: 0 <= i < |gs| ==> r[i] == Excess(gs[i])
  {
    if gs == [] then [] else [Excess(gs[0])] + GroupCounts(gs[1..])
  }

  /** `duplicate_counts`: one count per entry, month by month */
  function Counts(rows: seq<MonthRow>): seq<int>
  {
    if rows == [] then [] else GroupCounts(rows[0].groups) + Counts(rows[1..])
  }

  function DuplicateTotal(rows: seq<MonthRow>): int
  {
    if rows == [] then 0 else rows[0].duplicates + DuplicateTotal(rows[1..])
  }

  function Min(xs: seq<int>): (r: int)
    requires xs != []
    ensures r in xs && forall x :: x in xs ==> r <= x
  {
    if |xs| == 1 then xs[0]
    else
      assert forall x :: x in xs ==> x == xs[0] || x in xs[1..];
      var m := Min(xs[1..]); if xs[0] <= m then xs[0] else m
  }

  function Max(xs: seq<int>): (r: int)
    requires xs != []
    ensures r in xs && forall x :: x in xs ==> x <= r
  {
    if |xs| == 1 then xs[0]
    else
      assert forall x :: x in xs ==> x == xs[0] || x in xs[1..];
      var m := Max(xs[1..]); if xs[0] >= m then xs[0] else m
  }

  function MonthsIn(s: Tally): seq<string> { Sort(s.order) }

  lemma {:induction false} SortedMembers(s: Tally)
    requires Shaped(s)
    ensures forall m :: m in MonthsIn(s) ==> m in s.order
  {
    forall m | m in MonthsIn(s) ensures m in s.order {
      assert m in multiset(MonthsIn(s));
    }
  }

  function Finish(p: ProductSpec, ids: seq<string>, s: Tally): CheckReport
    requires Shaped(s)
  {
    SortedMembers(s);
    var rows := MonthRows(p, MonthsIn(s), s.months);
    var n := DuplicateTotal(rows);
    var counts := Counts(rows);
    CheckReport(|ids|, n, counts,
      if n > 0 && counts != [] then Some(Min(counts)) else None,
      if n > 0 && counts != [] then Some(Max(counts)) else None,
      rows)
  }

  /** `main`: the listing, then nothing when it is empty, else the report */
  function Check(p: ProductSpec, pages: seq<Page>): Result<Option<CheckReport>, Failure>
    requires Ends(pages)
  {
    match Fetch(p.pattern, pages)
    case Err(e) => Err(e)
    case Ok(ids) =>
      if ids == [] then Ok(None)
      else match Run(p, ids)
        case Err(e) => Err(e)
        case Ok(s) => Ok(Some(Finish(p, ids, s)))
  }

  lemma {:induction false} RunFailureSticks(p: ProductSpec, ids: seq<string>, i: nat)
    requires i <= |ids| && Run(p, ids[..i]).Err?
    ensures Run(p, ids) == Run(p, ids[..i])
    decreases |ids| - i
  {
    if i < |ids| {
      assert ids[..i + 1][..i] == ids[..i];
      RunFailureSticks(p, ids, i + 1);
    } else {
      assert ids[..i] == ids;
    }
  }

  /** the body of the main loop, on the loop's state */
  method Visit(p: ProductSpec, s: Tally, id: string) returns (r: Result<Tally, Failure>)
    ensures r == Step(p, s, id)
  {
    var matched := Match(p.pattern, id, 0);
    if matched.None? {
      return Err(Unparsed(id));
    }
    var f := matched.value;
    var month := MonthOf(p, f, id);
    if month.Err? {
      return Err(month.error);
    }
    var m := month.value;
    var key := KeyOf(p, f, id);
    if key.Err? {
      return Err(key.error);
    }
    var t := Tick(s, id, key.value, m);
    r := Ok(t);
  }

  /** the month's row and the first-seen map after one granule with key `k` in month `m`
    * (the key is computed before the row is touched: a failure aborts the scan either way) */
  method Tick(s: Tally, id: string, k: seq<string>, m: string) returns (t: Tally)
    ensures t == Next(s, id, k, m)
  {
    var row := if m in s.months then s.months[m] else Month(0, 0, map[], []);
    var order := if m in s.months then s.order else s.order + [m];
    row := row.(granules := row.granules + 1);
    if k in s.first {
      row := row.(duplicates := row.duplicates + 1);
      if k in row.groups {
        row := row.(groups := row.groups[k := row.groups[k] + [id]]);
      } else {
        row := row.(groups := row.groups[k := [s.first[k], id]], keys := row.keys + [k]);
      }
      t := Tally(s.months[m := row], order, s.first);
    } else {
      t := Tally(s.months[m := row], order, s.first[k := id]);
    }
  }

  /** the loop of `main` over the granule identifiers */
  method Bucket(p: ProductSpec, ids: seq<string>) returns (r: Result<Tally, Failure>)
    ensures r == Run(p, ids)
  {
    var s := Empty;
    var i := 0;
    while i < |ids|
      invariant 0 <= i <= |ids|
      invariant Run(p, ids[..i]) == Ok(s)
    {
      assert ids[..i + 1][..i] == ids[..i];
      var next := Visit(p, s, ids[i]);
      if next.Err? {
        RunFailureSticks(p, ids, i + 1);
        return Err(next.error);
      }
      s := next.value;
      i := i + 1;
    }
    assert ids[..i] == ids;
    r := Ok(s);
  }

  /** `main` */
  method CheckDuplicates(p: ProductSpec, pages: seq<Page>) returns (r: Result<Option<CheckReport>, Failure>)
    requires Ends(pages)
    ensures r == Check(p, pages)
  {
    var fetched := GetGranuleIds(p.pattern, pages);
    if fetched.Err? {
      return Err(fetched.error);
    }
    var ids := fetched.value;
    if ids == [] {
      return Ok(None);
    }
    var s := Bucket(p, ids);
    if s.Err? {
      return Err(s.error);
    }
    r := Ok(Some(Finish(p, ids, s.value)));
  }

  // ------------------------------------------------- what the counts mean

  /** the key and the month of an identifier the loop accepts */
  function KeyAt(p: ProductSpec, id: string): Option<seq<string>>
  {
    match Match(p.pattern, id, 0)
    case None => None
    case Some(f) => if KeyOf(p, f, id).Ok? then Some(KeyOf(p, f, id).value) else None
  }

  function MonthAt(p: ProductSpec, id: string): Option<string>
  {
    match Match(p.pattern, id, 0)
    case None => None
    case Some(f) => if MonthOf(p, f, id).Ok? then Some(MonthOf(p, f, id).value) else None
  }

  /** what the proofs need to know of the granules: their keys and months */
  datatype View = View(key: string -> Option<seq<string>>, month: string -> Option<string>)

  function ViewOf(p: ProductSpec): View { View(x => KeyAt(p, x), x => MonthAt(p, x)) }

  /** the keys of the identifiers of `q` */
  function Seen(v: View, q: seq<string>): set<seq<string>>
  {
    if q == [] then {}
    else
      var x := q[|q| - 1];
      Seen(v, q[..|q| - 1]) + (if v.key(x).Some? then {v.key(x).value} else {})
  }

  /** the first identifier of `q` with key `k` ("" when there is none) */
  function FirstWith(v: View, q: seq<string>, k: seq<string>): string
  {
    if q == [] then ""
    else
      var q0 := q[..|q| - 1];
      if k in Seen(v, q0) then FirstWith(v, q0, k) else if v.key(q[|q| - 1]) == Some(k) then q[|q| - 1] else ""
  }

  /** the identifiers of `q` in month `m` with key `k` seen before them, in order */
  function Later(v: View, q: seq<string>, k: seq<string>, m: string): seq<string>
  {
    if q == [] then []
    else
      var q0, x := q[..|q| - 1], q[|q| - 1];
      Later(v, q0, k, m) + (if v.key(x) == Some(k) && k in Seen(v, q0) && v.month(x) == Some(m) then [x] else [])
  }

  /** how many identifiers of `q` fall in month `m` */
  function InMonth(v: View, q: seq<string>, m: string): nat
  {
    if q == [] then 0
    else InMonth(v, q[..|q| - 1], m) + (if v.month(q[|q| - 1]) == Some(m) then 1 else 0)
  }

  function GranulesOf(r: Month): int { r.granules }
  function DuplicatesOf(r: Month): int { r.duplicates }
  function Extra(ids: seq<string>): int { |ids| - 1 }

  /** a month row after the granules `q`: its counts */
  ghost predicate RowCounts(v: View, q: seq<string>, m: string, r: Month)
  {
    && r.granules == InMonth(v, q, m)
    && r.duplicates <= r.granules
    && (forall k :: k in r.keys ==> k in r.groups)
    && SumMap(r.keys, r.groups, Extra) == r.duplicates
  }

  /** a month row after the granules `q`: for each key with repeats in this
    * month, the key's first granule followed by the repeats */
  ghost predicate RowLists(v: View, q: seq<string>, first: map<seq<string>, string>, m: string, r: Month)
  {
    && Distinct(r.keys)
    && (forall k :: k in r.keys <==> k in r.groups)
    && (forall k :: k in r.groups <==> Later(v, q, k, m) != [])
    && (forall k :: k in r.groups ==> k in first && r.groups[k] == [first[k]] + Later(v, q, k, m))
  }

  ghost predicate RowFits(v: View, q: seq<string>, first: map<seq<string>, string>, m: string, r: Month)
  {
    RowCounts(v, q, m, r) && RowLists(v, q, first, m, r)
  }

  /** `unique_granules` after the granules `q`: each key seen, with its first granule */
  ghost predicate FirstOk(v: View, q: seq<string>, first: map<seq<string>, string>)
  {
    first.Keys == Seen(v, q) && forall k :: k in first ==> first[k] == FirstWith(v, q, k)
  }

  /** the month rows after the granules `q` */
  ghost predicate RowsOk(v: View, q: seq<string>, s: Tally)
  {
    && (forall m :: m in s.months ==> RowFits(v, q, s.first, m, s.months[m]) && s.months[m].granules >= 1)
    && (forall m :: m !in s.months ==> InMonth(v, q, m) == 0)
  }

  /** the month keys, in insertion order */
  ghost predicate OrderOk(s: Tally)
  {
    Distinct(s.order) && forall m :: m in s.order <==> m in s.months
  }

  ghost predicate SumsOk(v: View, q: seq<string>, s: Tally)
    requires OrderOk(s)
  {
    SumMap(s.order, s.months, GranulesOf) == |q| && SumMap(s.order, s.months, DuplicatesOf) + |s.first| == |q|
  }

  /** the state after the granules `q` */
  ghost predicate Inv(v: View, q: seq<string>, s: Tally)
  {
    FirstOk(v, q, s.first) && OrderOk(s) && RowsOk(v, q, s) && SumsOk(v, q, s)
  }

  lemma {:induction false} SeenSnoc(v: View, q: seq<string>, x: string)
    ensures Seen(v, q + [x]) == Seen(v, q) + (if v.key(x).Some? then {v.key(x).value} else {})
  {
    assert (q + [x])[..|q|] == q;
  }

  lemma {:induction false} FirstWithSnoc(v: View, q: seq<string>, x: string, k: seq<string>)
    ensures FirstWith(v, q + [x], k) ==
      (if k in Seen(v, q) then FirstWith(v, q, k) else if v.key(x) == Some(k) then x else "")
  {
    assert (q + [x])[..|q|] == q;
  }

  lemma {:induction false} LaterSnoc(v: View, q: seq<string>, x: string, k: seq<string>, m: string)
    ensures Later(v, q + [x], k, m) ==
      Later(v, q, k, m) + (if v.key(x) == Some(k) && k in Seen(v, q) && v.month(x) == Some(m) then [x] else [])
  {
    assert (q + [x])[..|q|] == q;
  }

  lemma {:induction false} InMonthSnoc(v: View, q: seq<string>, x: string, m: string)
    ensures InMonth(v, q + [x], m) == InMonth(v, q, m) + (if v.month(x) == Some(m) then 1 else 0)
  {
    assert (q + [x])[..|q|] == q;
  }

  lemma {:induction false} LaterInMonth(v: View, q: seq<string>, k: seq<string>, m: string)
    ensures |Later(v, q, k, m)| <= InMonth(v, q, m)
  {
    if q != [] { LaterInMonth(v, q[..|q| - 1], k, m); }
  }

  lemma {:induction false} FreshRow(v: View, q: seq<string>, first: map<seq<string>, string>, m: string)
    requires InMonth(v, q, m) == 0
    ensures RowFits(v, q, first, m, Month(0, 0, map[], []))
  {
    forall k ensures Later(v, q, k, m) == [] { LaterInMonth(v, q, k, m); }
  }

  /** the rows of the other months keep fitting */
  lemma {:induction false} OtherRow(v: View, q: seq<string>, first0: map<seq<string>, string>, first: map<seq<string>, string>,
                 x: string, m: string, r: Month)
    requires RowFits(v, q, first0, m, r)
    requires v.month(x) != Some(m)
    requires forall k :: k in first0 ==> k in first && first[k] == first0[k]
    ensures RowFits(v, q + [x], first, m, r)
  {
    InMonthSnoc(v, q, x, m);
    forall k ensures Later(v, q + [x], k, m) == Later(v, q, k, m) { LaterSnoc(v, q, x, k, m); }
  }

  /** a granule with a new key only raises its month's count */
  lemma {:induction false} NewKeyRow(v: View, q: seq<string>, first: map<seq<string>, string>, x: string, k: seq<string>, m: string, r: Month)
    requires RowFits(v, q, first, m, r)
    requires v.key(x) == Some(k) && v.month(x) == Some(m) && k !in Seen(v, q) && k !in first
    ensures RowFits(v, q + [x], first[k := x], m, r.(granules := r.granules + 1))
  {
    var r' := r.(granules := r.granules + 1);
    assert RowCounts(v, q + [x], m, r') by { InMonthSnoc(v, q, x, m); }
    assert RowLists(v, q + [x], first[k := x], m, r') by {
      forall j ensures Later(v, q + [x], j, m) == Later(v, q, j, m) { LaterSnoc(v, q, x, j, m); }
    }
  }

  /** a granule whose key was seen is a repeat of its key in its month only */
  lemma {:induction false} LaterAppends(v: View, q: seq<string>, x: string, k: seq<string>, m: string)
    requires v.key(x) == Some(k) && v.month(x) == Some(m) && k in Seen(v, q)
    ensures forall j :: Later(v, q + [x], j, m) == Later(v, q, j, m) + (if j == k then [x] else [])
  {
    forall j ensures Later(v, q + [x], j, m) == Later(v, q, j, m) + (if j == k then [x] else []) {
      LaterSnoc(v, q, x, j, m);
    }
  }

  /** a granule with a seen key is appended to the key's list of its month */
  lemma {:induction false} SeenKeyRowListed(v: View, q: seq<string>, first: map<seq<string>, string>, x: string, k: seq<string>, m: string, r: Month)
    requires RowFits(v, q, first, m, r)
    requires v.key(x) == Some(k) && v.month(x) == Some(m) && k in Seen(v, q) && k in first
    requires k in r.groups
    ensures RowFits(v, q + [x], first, m, Appended(r, k, first[k], x))
  {
    SeenKeyCountsListed(v, q, first, x, k, m, r);
    SeenKeyListsListed(v, q, first, x, k, m, r);
  }

  lemma {:induction false} SeenKeyCountsListed(v: View, q: seq<string>, first: map<seq<string>, string>, x: string, k: seq<string>, m: string, r: Month)
    requires RowCounts(v, q, m, r) && Distinct(r.keys) && (forall j :: j in r.keys <==> j in r.groups)
    requires v.month(x) == Some(m) && k in first && k in r.groups
    ensures RowCounts(v, q + [x], m, Appended(r, k, first[k], x))
  {
    InMonthSnoc(v, q, x, m);
    SumMapUpdate(r.keys, r.groups, k, r.groups[k] + [x], Extra);
  }

  lemma {:induction false} SeenKeyListsListed(v: View, q: seq<string>, first: map<seq<string>, string>, x: string, k: seq<string>, m: string, r: Month)
    requires RowLists(v, q, first, m, r)
    requires v.key(x) == Some(k) && v.month(x) == Some(m) && k in Seen(v, q) && k in first
    requires k in r.groups
    ensures RowLists(v, q + [x], first, m, Appended(r, k, first[k], x))
  {
    var a := Appended(r, k, first[k], x);
    assert a.keys == r.keys && a.groups == r.groups[k := r.groups[k] + [x]];
    GroupsAppend(v, q, first, x, k, m, r.groups);
  }

  /** Appending `x` to the list of its key keeps every list equal to its head followed by the later duplicates. */
  lemma {:induction false} GroupsAppend(v: View, q: seq<string>, first: map<seq<string>, string>, x: string, k: seq<string>, m: string,
                                        g: map<seq<string>, seq<string>>)
    requires v.key(x) == Some(k) && v.month(x) == Some(m) && k in Seen(v, q) && k in g
    requires forall j :: j in g <==> Later(v, q, j, m) != []
    requires forall j :: j in g ==> j in first && g[j] == [first[j]] + Later(v, q, j, m)
    ensures forall j :: j in g[k := g[k] + [x]] <==> Later(v, q + [x], j, m) != []
    ensures forall j :: j in g[k := g[k] + [x]] ==> j in first && g[k := g[k] + [x]][j] == [first[j]] + Later(v, q + [x], j, m)
  {
    var g' := g[k := g[k] + [x]];
    forall j
      ensures (j in g' <==> Later(v, q + [x], j, m) != [])
      ensures j in g' ==> j in first && g'[j] == [first[j]] + Later(v, q + [x], j, m)
    {
      LaterSnoc(v, q, x, j, m);
    }
  }

  lemma {:induction false} SeenKeyCountsFresh(v: View, q: seq<string>, first: map<seq<string>, string>, x: string, k: seq<string>, m: string, r: Month)
    requires RowFits(v, q, first, m, r)
    requires v.month(x) == Some(m) && k in first && k !in r.groups
    ensures RowCounts(v, q + [x], m, Appended(r, k, first[k], x))
  {
    InMonthSnoc(v, q, x, m);
    assert k !in r.keys;
    SumMapAdd(r.keys, r.groups, k, [first[k], x], Extra);
  }

  /** a key's first repeat in a month opens its list there */
  lemma {:induction false} SeenKeyListsFresh(v: View, q: seq<string>, first: map<seq<string>, string>, x: string, k: seq<string>, m: string, r: Month)
    requires RowLists(v, q, first, m, r)
    requires v.key(x) == Some(k) && v.month(x) == Some(m) && k in Seen(v, q) && k in first
    requires k !in r.groups
    ensures RowLists(v, q + [x], first, m, Appended(r, k, first[k], x))
  {
    FreshKeys(r.keys, r.groups, k, [first[k], x]);
    LaterAppends(v, q, x, k, m);
    FreshLists(v, q, first, x, k, m, r);
  }

  lemma {:induction false} FreshKeys(keys: seq<seq<string>>, groups: map<seq<string>, seq<string>>, k: seq<string>, l: seq<string>)
    requires Distinct(keys) && (forall j :: j in keys <==> j in groups) && k !in groups
    ensures Distinct(keys + [k]) && forall j :: j in keys + [k] <==> j in groups[k := l]
  {
  }

  lemma {:induction false} FreshLists(v: View, q: seq<string>, first: map<seq<string>, string>, x: string, k: seq<string>, m: string, r: Month)
    requires forall j :: j in r.groups <==> Later(v, q, j, m) != []
    requires forall j :: j in r.groups ==> j in first && r.groups[j] == [first[j]] + Later(v, q, j, m)
    requires forall j :: Later(v, q + [x], j, m) == Later(v, q, j, m) + (if j == k then [x] else [])
    requires k in first && k !in r.groups
    ensures forall j :: j in r.groups[k := [first[k], x]] <==> Later(v, q + [x], j, m) != []
    ensures forall j :: j in r.groups[k := [first[k], x]] ==>
      j in first && r.groups[k := [first[k], x]][j] == [first[j]] + Later(v, q + [x], j, m)
  {
    assert Later(v, q + [x], k, m) == [x];
  }

  lemma {:induction false} FirstSeen(v: View, q: seq<string>, first: map<seq<string>, string>, x: string, k: seq<string>)
    requires FirstOk(v, q, first) && v.key(x) == Some(k) && k in first
    ensures FirstOk(v, q + [x], first)
  {
    SeenSnoc(v, q, x);
    forall j | j in first ensures first[j] == FirstWith(v, q + [x], j) { FirstWithSnoc(v, q, x, j); }
  }

  lemma {:induction false} FirstNew(v: View, q: seq<string>, first: map<seq<string>, string>, x: string, k: seq<string>)
    requires FirstOk(v, q, first) && v.key(x) == Some(k) && k !in first
    ensures FirstOk(v, q + [x], first[k := x])
  {
    SeenSnoc(v, q, x);
    forall j | j in first[k := x] ensures first[k := x][j] == FirstWith(v, q + [x], j) { FirstWithSnoc(v, q, x, j); }
  }

  /** the month counters after one more granule in month `m` */
  lemma {:induction false} SumsStep(v: View, q: seq<string>, s0: Tally, x: string, s: Tally, m: string, row: Month, dup: nat)
    requires OrderOk(s0) && SumsOk(v, q, s0)
    requires s == Tally(s0.months[m := row], if m in s0.months then s0.order else s0.order + [m], s.first)
    requires m in s0.months ==> row.granules == s0.months[m].granules + 1 && row.duplicates == s0.months[m].duplicates + dup
    requires m !in s0.months ==> row.granules == 1 && row.duplicates == dup
    requires |s.first| + dup == |s0.first| + 1
    ensures OrderOk(s) && SumsOk(v, q + [x], s)
  {
    if m in s0.months {
      SumMapUpdate(s0.order, s0.months, m, row, GranulesOf);
      SumMapUpdate(s0.order, s0.months, m, row, DuplicatesOf);
    } else {
      SumMapAdd(s0.order, s0.months, m, row, GranulesOf);
      SumMapAdd(s0.order, s0.months, m, row, DuplicatesOf);
    }
  }

  /** the state after a granule `x` with key `k` in month `m` */
  function Next(s0: Tally, x: string, k: seq<string>, m: string): Tally
  {
    var row0 := if m in s0.months then s0.months[m] else Month(0, 0, map[], []);
    var order := if m in s0.months then s0.order else s0.order + [m];
    if k in s0.first then Tally(s0.months[m := Appended(row0, k, s0.first[k], x)], order, s0.first)
    else Tally(s0.months[m := row0.(granules := row0.granules + 1)], order, s0.first[k := x])
  }

  /** the row of the granule's own month */
  lemma {:induction false} RowStep(v: View, q: seq<string>, s0: Tally, x: string, k: seq<string>, m: string)
    requires Inv(v, q, s0)
    requires v.key(x) == Some(k) && v.month(x) == Some(m)
    ensures m in Next(s0, x, k, m).months
    ensures RowFits(v, q + [x], Next(s0, x, k, m).first, m, Next(s0, x, k, m).months[m])
    ensures Next(s0, x, k, m).months[m].granules >= 1
  {
    var row0 := if m in s0.months then s0.months[m] else Month(0, 0, map[], []);
    if m !in s0.months { FreshRow(v, q, s0.first, m); }
    assert RowFits(v, q, s0.first, m, row0);
    if k !in s0.first {
      NewKeyRow(v, q, s0.first, x, k, m, row0);
    } else if k in row0.groups {
      SeenKeyRowListed(v, q, s0.first, x, k, m, row0);
    } else {
      SeenKeyCountsFresh(v, q, s0.first, x, k, m, row0);
      SeenKeyListsFresh(v, q, s0.first, x, k, m, row0);
    }
  }

  /** the step leaves the other months and the earlier first granules alone */
  lemma {:induction false} NextFrame(s0: Tally, x: string, k: seq<string>, m: string)
    ensures forall m' :: m' in Next(s0, x, k, m).months <==> m' in s0.months || m' == m
    ensures forall m' :: m' in s0.months && m' != m ==> Next(s0, x, k, m).months[m'] == s0.months[m']
    ensures forall j :: j in s0.first ==> j in Next(s0, x, k, m).first && Next(s0, x, k, m).first[j] == s0.first[j]
  {
  }

  lemma {:induction false} RowsStep(v: View, q: seq<string>, s0: Tally, x: string, k: seq<string>, m: string)
    requires Inv(v, q, s0)
    requires v.key(x) == Some(k) && v.month(x) == Some(m)
    ensures RowsOk(v, q + [x], Next(s0, x, k, m))
  {
    var s := Next(s0, x, k, m);
    RowStep(v, q, s0, x, k, m);
    NextFrame(s0, x, k, m);
    forall m' | m' in s.months && m' != m ensures RowFits(v, q + [x], s.first, m', s.months[m']) && s.months[m'].granules >= 1 {
      OtherRow(v, q, s0.first, s.first, x, m', s0.months[m']);
    }
    forall m' | m' !in s.months ensures InMonth(v, q + [x], m') == 0 { InMonthSnoc(v, q, x, m'); }
  }

  /** the month map and the first-granule map after the step */
  lemma {:induction false} NextParts(s0: Tally, x: string, k: seq<string>, m: string)
    ensures var s := Next(s0, x, k, m); var dup := if k in s0.first then 1 else 0;
      && m in s.months
      && s.months == s0.months[m := s.months[m]]
      && s.order == (if m in s0.months then s0.order else s0.order + [m])
      && (m in s0.months ==> s.months[m].granules == s0.months[m].granules + 1 && s.months[m].duplicates == s0.months[m].duplicates + dup)
      && (m !in s0.months ==> s.months[m].granules == 1 && s.months[m].duplicates == dup)
      && |s.first| + dup == |s0.first| + 1
  {
  }

  lemma {:induction false} StepSums(v: View, q: seq<string>, s0: Tally, x: string, k: seq<string>, m: string)
    requires OrderOk(s0) && SumsOk(v, q, s0)
    ensures OrderOk(Next(s0, x, k, m)) && SumsOk(v, q + [x], Next(s0, x, k, m))
  {
    var s := Next(s0, x, k, m);
    NextParts(s0, x, k, m);
    SumsStep(v, q, s0, x, s, m, s.months[m], if k in s0.first then 1 else 0);
  }

  lemma {:induction false} StepFirst(v: View, q: seq<string>, s0: Tally, x: string, k: seq<string>, m: string)
    requires FirstOk(v, q, s0.first) && v.key(x) == Some(k)
    ensures FirstOk(v, q + [x], Next(s0, x, k, m).first)
  {
    if k in s0.first {
      FirstSeen(v, q, s0.first, x, k);
    } else {
      FirstNew(v, q, s0.first, x, k);
    }
  }

  lemma {:induction false} StepInv(v: View, q: seq<string>, s0: Tally, x: string, k: seq<string>, m: string)
    requires Inv(v, q, s0)
    requires v.key(x) == Some(k) && v.month(x) == Some(m)
    ensures Inv(v, q + [x], Next(s0, x, k, m))
  {
    RowsStep(v, q, s0, x, k, m);
    StepFirst(v, q, s0, x, k, m);
    StepSums(v, q, s0, x, k, m);
  }

  /** the step succeeds exactly on a granule with a key and a month */
  lemma {:induction false} StepAccepts(p: ProductSpec, s: Tally, x: string)
    ensures Step(p, s, x).Ok? <==> KeyAt(p, x).Some? && MonthAt(p, x).Some?
  {
  }

  lemma {:induction false} StepIsNext(p: ProductSpec, s0: Tally, x: string)
    requires KeyAt(p, x).Some? && MonthAt(p, x).Some?
    ensures Step(p, s0, x) == Ok(Next(s0, x, KeyAt(p, x).value, MonthAt(p, x).value))
  {
  }

  /** the last step of a run that succeeded */
  lemma {:induction false} RunLast(p: ProductSpec, ids: seq<string>)
    requires ids != [] && Run(p, ids).Ok?
    ensures var q, x := ids[..|ids| - 1], ids[|ids| - 1];
      && Run(p, q).Ok? && KeyAt(p, x).Some? && MonthAt(p, x).Some?
      && ViewOf(p).key(x) == KeyAt(p, x) && ViewOf(p).month(x) == MonthAt(p, x)
      && Run(p, ids).value == Next(Run(p, q).value, x, KeyAt(p, x).value, MonthAt(p, x).value)
  {
    var q, x := ids[..|ids| - 1], ids[|ids| - 1];
    assert Run(p, q).Ok?;
    var s0 := Run(p, q).value;
    assert Run(p, ids) == Step(p, s0, x);
    StepAccepts(p, s0, x);
    StepIsNext(p, s0, x);
  }

  lemma {:induction false} StepInvLast(v: View, ids: seq<string>, s0: Tally, k: seq<string>, m: string)
    requires ids != [] && Inv(v, ids[..|ids| - 1], s0)
    requires v.key(ids[|ids| - 1]) == Some(k) && v.month(ids[|ids| - 1]) == Some(m)
    ensures Inv(v, ids, Next(s0, ids[|ids| - 1], k, m))
  {
    var q, x := ids[..|ids| - 1], ids[|ids| - 1];
    var t := Next(s0, x, k, m);
    StepInv(v, q, s0, x, k, m);
    SplitLast(ids);
    InvSame(v, q + [x], ids, t);
  }

  lemma {:induction false} InvSame(v: View, a: seq<string>, b: seq<string>, s: Tally)
    requires a == b && Inv(v, a, s)
    ensures Inv(v, b, s)
  { }

  lemma {:induction false} RunInv(p: ProductSpec, ids: seq<string>)
    requires Run(p, ids).Ok?
    ensures Inv(ViewOf(p), ids, Run(p, ids).value)
  {
    if ids != [] {
      var q, x := ids[..|ids| - 1], ids[|ids| - 1];
      RunLast(p, ids);
      RunInv(p, q);
      StepInvLast(ViewOf(p), ids, Run(p, q).value, KeyAt(p, x).value, MonthAt(p, x).value);
    }
  }

  // ---------------------------------------------------- what the report says

  function MonthsOf(rows: seq<MonthRow>): (r: seq<string>)
    ensures |r| == |rows| && forall i :: 0 <= i < |rows| ==> r[i] == rows[i].month
  {
    if rows == [] then [] else [rows[0].month] + MonthsOf(rows[1..])
  }

  function KeysOf(gs: seq<Group>): (r: seq<seq<string>>)
    ensures |r| == |gs| && forall i :: 0 <= i < |gs| ==> r[i] == gs[i].key
  {
    if gs == [] then [] else [gs[0].key] + KeysOf(gs[1..])
  }

  function GranuleTotal(rows: seq<MonthRow>): int
  {
    if rows == [] then 0 else rows[0].granules + GranuleTotal(rows[1..])
  }

  /** the rows as a list over the month map */
  lemma {:induction false} RowsTotal(rows: seq<MonthRow>, ms: seq<string>, months: map<string, Month>)
    requires |rows| == |ms| && forall m :: m in ms ==> m in months
    requires forall i :: 0 <= i < |ms| ==> Mirrors(months, ms[i], rows[i])
    ensures DuplicateTotal(rows) == SumMap(ms, months, DuplicatesOf)
    ensures GranuleTotal(rows) == SumMap(ms, months, GranulesOf)
  {
    if ms != [] {
      RowsTotal(rows[1..], ms[1..], months);
      assert [ms[0]] + ms[1..] == ms;
      SumMapAppend([ms[0]], ms[1..], months, DuplicatesOf);
      SumMapAppend([ms[0]], ms[1..], months, GranulesOf);
    }
  }

  /** the months listed are the months of the map, in strictly ascending order */
  lemma {:induction false} SortedMonths(s: Tally)
    requires OrderOk(s)
    ensures StrictlySorted(MonthsIn(s))
    ensures forall m :: m in MonthsIn(s) <==> m in s.months
  {
    SortSorted(s.order);
    DistinctPermutation(s.order, MonthsIn(s));
    SortedDistinct(MonthsIn(s));
    forall m ensures m in MonthsIn(s) <==> m in s.order {
      assert m in MonthsIn(s) <==> m in multiset(MonthsIn(s));
    }
  }

  /** `n_granules`, `n_duplicates` and the month rows of the report */
  lemma {:induction false} ReportTotals(p: ProductSpec, v: View, ids: seq<string>, s: Tally)
    requires Shaped(s) && Inv(v, ids, s)
    ensures Finish(p, ids, s).granules == |ids|
    ensures Finish(p, ids, s).duplicates == |ids| - |Seen(v, ids)|
    ensures GranuleTotal(Finish(p, ids, s).months) == |ids|
  {
    SortedMembers(s);
    var ms := MonthsIn(s);
    RowsTotal(MonthRows(p, ms, s.months), ms, s.months);
    SumMapPermutation(s.order, ms, s.months, DuplicatesOf);
    SumMapPermutation(s.order, ms, s.months, GranulesOf);
    assert |s.first| == |s.first.Keys|;
  }

  /** every month with a granule has a row, in ascending month order, with
    * `1 <= n_granules` and `n_duplicates <= n_granules` */
  lemma {:induction false} ReportMonths(p: ProductSpec, v: View, ids: seq<string>, s: Tally)
    requires Shaped(s) && Inv(v, ids, s)
    ensures var rows := Finish(p, ids, s).months;
      && StrictlySorted(MonthsOf(rows))
      && (forall m :: m in MonthsOf(rows) <==> InMonth(v, ids, m) > 0)
      && forall i :: 0 <= i < |rows| ==>
        1 <= rows[i].granules == InMonth(v, ids, rows[i].month) && rows[i].duplicates <= rows[i].granules
  {
    SortedMembers(s);
    var rows := MonthRows(p, MonthsIn(s), s.months);
    assert Finish(p, ids, s).months == rows;
    SortedMonths(s);
    RowsCounted(v, ids, s, rows);
  }

  lemma {:induction false} RowsMonths(rows: seq<MonthRow>, ms: seq<string>)
    requires |rows| == |ms| && forall i :: 0 <= i < |ms| ==> rows[i].month == ms[i]
    ensures MonthsOf(rows) == ms
  {
  }

  lemma {:induction false} RowsCounted(v: View, ids: seq<string>, s: Tally, rows: seq<MonthRow>)
    requires Inv(v, ids, s)
    requires |rows| == |MonthsIn(s)|
    requires forall i :: 0 <= i < |rows| ==> Mirrors(s.months, MonthsIn(s)[i], rows[i])
    ensures StrictlySorted(MonthsOf(rows))
    ensures forall m :: m in MonthsOf(rows) <==> InMonth(v, ids, m) > 0
    ensures forall i :: 0 <= i < |rows| ==>
      1 <= rows[i].granules == InMonth(v, ids, rows[i].month) && rows[i].duplicates <= rows[i].granules
  {
    SortedMonths(s);
    RowsMonths(rows, MonthsIn(s));
    forall i | 0 <= i < |rows|
      ensures 1 <= rows[i].granules == InMonth(v, ids, rows[i].month) && rows[i].duplicates <= rows[i].granules
    {
      RowCounted(v, ids, s, MonthsIn(s)[i]);
    }
  }

  lemma {:induction false} RowCounted(v: View, ids: seq<string>, s: Tally, m: string)
    requires RowsOk(v, ids, s) && m in s.months
    ensures 1 <= s.months[m].granules == InMonth(v, ids, m) && s.months[m].duplicates <= s.months[m].granules
  {
    assert RowCounts(v, ids, m, s.months[m]);
  }

  /** `latest_product` is the first granule of the group with the greatest
    * creation timestamp, and `duplicate_products` holds the others */
  lemma {:induction false} RankSpec(p: ProductSpec, k: seq<string>, l: seq<string>)
    requires l != [] && p.createGroup.Some?
    ensures var g := Rank(p, k, l);
      && g.Ranked?
      && g.latest == l[FirstMaxIndex(l, CreationKey(p))]
      && multiset([g.latest] + g.rest) == multiset(l)
      && forall y :: y in g.rest ==> LexLe(CreationIn(p, y), CreationIn(p, g.latest))
  {
    var key := CreationKey(p);
    var sorted := SortBy(l, key, true);
    assert Rank(p, k, l) == Ranked(k, sorted[0], sorted[1..]);
    SortDescFirst(l, key);
    SplitFirst(sorted);
    RankBound(p, l);
  }

  lemma {:induction false} RankBound(p: ProductSpec, l: seq<string>)
    requires l != []
    ensures var sorted := SortBy(l, CreationKey(p), true);
      forall y :: y in sorted[1..] ==> LexLe(CreationIn(p, y), CreationIn(p, sorted[0]))
  {
    var key := CreationKey(p);
    SortDescBound(l, key);
    var sorted := SortBy(l, key, true);
    forall y | y in sorted[1..] ensures LexLe(CreationIn(p, y), CreationIn(p, sorted[0])) {
      assert key(y) == CreationIn(p, y) && key(sorted[0]) == CreationIn(p, sorted[0]);
    }
  }

  /** the `duplicates` entries of a month: one per key with a repeat in
    * that month, each listing the key's first granule and then its repeats
    * in that month (ranked when the product has a creation timestamp) */
  lemma {:induction false} ReportGroups(p: ProductSpec, v: View, ids: seq<string>, s: Tally, i: nat, j: nat)
    requires Shaped(s) && Inv(v, ids, s)
    requires i < |Finish(p, ids, s).months| && j < |Finish(p, ids, s).months[i].groups|
    ensures var row := Finish(p, ids, s).months[i]; var g := row.groups[j];
      var l := [FirstWith(v, ids, g.key)] + Later(v, ids, g.key, row.month);
      && Later(v, ids, g.key, row.month) != []
      && (p.createGroup.None? ==> g == Listed(g.key, l))
      && (p.createGroup.Some? ==>
            && g.Ranked? && multiset([g.latest] + g.rest) == multiset(l)
            && g.latest == l[FirstMaxIndex(l, CreationKey(p))]
            && forall y :: y in g.rest ==> LexLe(CreationIn(p, y), CreationIn(p, g.latest)))
  {
    SortedMembers(s);
    var rows := Finish(p, ids, s).months;
    var m := MonthsIn(s)[i];
    assert rows[i].month == m && m in s.order;
    var row := s.months[m];
    assert RowLists(v, ids, s.first, m, row);
    var k := row.keys[j];
    assert rows[i].groups[j] == Rank(p, k, row.groups[k]);
    if p.createGroup.Some? { RankSpec(p, k, row.groups[k]); }
  }

  /** each key with a repeat in a month has one entry there */
  lemma {:induction false} ReportGroupKeys(p: ProductSpec, v: View, ids: seq<string>, s: Tally, i: nat)
    requires Shaped(s) && Inv(v, ids, s)
    requires i < |Finish(p, ids, s).months|
    ensures var row := Finish(p, ids, s).months[i];
      && Distinct(KeysOf(row.groups))
      && forall k :: k in KeysOf(row.groups) <==> Later(v, ids, k, row.month) != []
  {
    SortedMembers(s);
    var rows := Finish(p, ids, s).months;
    var m := MonthsIn(s)[i];
    assert rows[i].month == m && m in s.order;
    var row := s.months[m];
    assert RowLists(v, ids, s.first, m, row);
    assert KeysOf(rows[i].groups) == row.keys;
  }

  /** one count per entry, month by month */
  lemma {:induction false} CountsSum(cs: seq<int>, keys: seq<seq<string>>, groups: map<seq<string>, seq<string>>)
    requires |cs| == |keys| && forall k :: k in keys ==> k in groups
    requires forall j :: 0 <= j < |keys| ==> cs[j] == Extra(groups[keys[j]])
    ensures Sum(cs) == SumMap(keys, groups, Extra)
  {
    if keys != [] {
      CountsSum(cs[..|cs| - 1], keys[..|keys| - 1], groups);
    }
  }

  lemma {:induction false} CountsTotal(rows: seq<MonthRow>)
    requires forall i :: 0 <= i < |rows| ==> Sum(GroupCounts(rows[i].groups)) == rows[i].duplicates
    ensures Sum(Counts(rows)) == DuplicateTotal(rows)
  {
    if rows != [] {
      CountsTotal(rows[1..]);
      SumAppend(GroupCounts(rows[0].groups), Counts(rows[1..]));
    }
  }

  lemma {:induction false} CountsPositive(rows: seq<MonthRow>)
    requires forall i, j :: 0 <= i < |rows| && 0 <= j < |rows[i].groups| ==> Excess(rows[i].groups[j]) >= 1
    ensures forall c :: c in Counts(rows) ==> c >= 1
  {
    if rows != [] {
      CountsPositive(rows[1..]);
      var cs := GroupCounts(rows[0].groups);
      assert forall c :: c in cs ==> c >= 1 by {
        forall c | c in cs ensures c >= 1 { var j :| 0 <= j < |cs| && cs[j] == c; }
      }
    }
  }

  /** the counts of one month's entries add up to its `n_duplicates`, and each is at least 1 */
  /** a month's counts add up to what its keys contribute */
  lemma {:induction false} RowCountsSum(p: ProductSpec, row: Month)
    requires forall k :: k in row.keys ==> k in row.groups && row.groups[k] != []
    ensures Sum(GroupCounts(GroupRows(p, row.keys, row.groups))) == SumMap(row.keys, row.groups, Extra)
  {
    var gs := GroupRows(p, row.keys, row.groups);
    forall j | 0 <= j < |gs| ensures GroupCounts(gs)[j] == Extra(row.groups[row.keys[j]]) {
      RankExcess(p, row.keys[j], row.groups[row.keys[j]]);
    }
    CountsSum(GroupCounts(gs), row.keys, row.groups);
  }

  lemma {:induction false} RankExcess(p: ProductSpec, k: seq<string>, ids: seq<string>)
    requires ids != []
    ensures Excess(Rank(p, k, ids)) == Extra(ids)
  {
  }

  lemma {:induction false} EntryCounts(p: ProductSpec, v: View, ids: seq<string>, first: map<seq<string>, string>, m: string, row: Month)
    requires RowLists(v, ids, first, m, row)
    requires forall k :: k in row.keys ==> k in row.groups && row.groups[k] != []
    ensures var gs := GroupRows(p, row.keys, row.groups);
      forall j :: 0 <= j < |gs| ==> GroupCounts(gs)[j] == Excess(gs[j]) == Extra(row.groups[row.keys[j]]) >= 1
  {
    var gs := GroupRows(p, row.keys, row.groups);
    forall j | 0 <= j < |gs| ensures Excess(gs[j]) == Extra(row.groups[row.keys[j]]) >= 1 {
      EntryCount(p, v, ids, first, m, row, row.keys[j]);
    }
  }

  lemma {:induction false} EntryCount(p: ProductSpec, v: View, ids: seq<string>, first: map<seq<string>, string>, m: string, row: Month, k: seq<string>)
    requires RowLists(v, ids, first, m, row) && k in row.keys
    ensures k in row.groups && row.groups[k] != []
    ensures Excess(Rank(p, k, row.groups[k])) == Extra(row.groups[k]) >= 1
  {
    assert Later(v, ids, k, m) != [];
  }

  /** `duplicate_counts` and its minimum and maximum */
  lemma {:induction false} ReportCounts(p: ProductSpec, v: View, ids: seq<string>, s: Tally)
    requires Shaped(s) && Inv(v, ids, s)
    ensures var r := Finish(p, ids, s);
      && Sum(r.counts) == r.duplicates
      && (forall c :: c in r.counts ==> c >= 1)
      && (r.minPerGranule.Some? <==> r.duplicates > 0)
      && (r.maxPerGranule.Some? <==> r.duplicates > 0)
      && (r.minPerGranule.Some? ==> r.minPerGranule.value in r.counts && forall c :: c in r.counts ==> r.minPerGranule.value <= c)
      && (r.maxPerGranule.Some? ==> r.maxPerGranule.value in r.counts && forall c :: c in r.counts ==> c <= r.maxPerGranule.value)
  {
    SortedMembers(s);
    var rows := MonthRows(p, MonthsIn(s), s.months);
    assert Finish(p, ids, s).months == rows && Finish(p, ids, s).counts == Counts(rows);
    assert Finish(p, ids, s).duplicates == DuplicateTotal(rows);
    forall m | m in s.order ensures MonthCounted(p, s, m) {
      MonthCounts(p, v, ids, s, m);
    }
    RowsCountsSum(p, ids, s);
  }

  /** one month's entry counts sum to its duplicate count, and each is at least one */
  ghost predicate MonthCounted(p: ProductSpec, s: Tally, m: string)
    requires Shaped(s) && m in s.order
  {
    var row := s.months[m];
    var gs := GroupRows(p, row.keys, row.groups);
    Sum(GroupCounts(gs)) == row.duplicates && forall j :: 0 <= j < |gs| ==> Excess(gs[j]) >= 1
  }

  lemma {:induction false} RowsCountsSum(p: ProductSpec, ids: seq<string>, s: Tally)
    requires Shaped(s) && forall m :: m in s.order ==> MonthCounted(p, s, m)
    ensures var r := Finish(p, ids, s);
      Sum(Counts(r.months)) == DuplicateTotal(r.months) && forall c :: c in Counts(r.months) ==> c >= 1
  {
    SortedMembers(s);
    var ms := MonthsIn(s);
    var rows := MonthRows(p, ms, s.months);
    forall i | 0 <= i < |rows|
      ensures Sum(GroupCounts(rows[i].groups)) == rows[i].duplicates
      ensures forall j :: 0 <= j < |rows[i].groups| ==> Excess(rows[i].groups[j]) >= 1
    {
      assert MonthCounted(p, s, ms[i]);
    }
    CountsTotal(rows);
    CountsPositive(rows);
    assert Finish(p, ids, s).months == rows;
  }

  lemma {:induction false} MonthCounts(p: ProductSpec, v: View, ids: seq<string>, s: Tally, m: string)
    requires Shaped(s) && Inv(v, ids, s) && m in s.order
    ensures MonthCounted(p, s, m)
  {
    EntryCounts(p, v, ids, s.first, m, s.months[m]);
    RowCountsSum(p, s.months[m]);
  }

  /** `len(dup)`, what the branch without a creation group counts per entry:
    * the whole list, the key's first granule included */
  function CountAsWritten(g: Group): int
  {
    match g
    case Listed(_, ids) => |ids|
    case Ranked(_, _, rest) => |rest|
  }

  function GroupCountsAsWritten(gs: seq<Group>): (r: seq<int>)
    ensures |r| == |gs| && forall i :: 0 <= i < |gs| ==> r[i] == CountAsWritten(gs[i])
  {
    if gs == [] then [] else [CountAsWritten(gs[0])] + GroupCountsAsWritten(gs[1..])
  }

  /** `duplicate_counts` as the checker computes it */
  function CountsAsWritten(rows: seq<MonthRow>): seq<int>
  {
    if rows == [] then [] else GroupCountsAsWritten(rows[0].groups) + CountsAsWritten(rows[1..])
  }

  /** without a creation group every entry's count as written is one more
    * than the duplicates it stands for */
  lemma {:induction false} CountsAsWrittenOverstate(rows: seq<MonthRow>)
    requires forall i, j :: 0 <= i < |rows| && 0 <= j < |rows[i].groups| ==> rows[i].groups[j].Listed?
    ensures |CountsAsWritten(rows)| == |Counts(rows)|
    ensures forall i :: 0 <= i < |Counts(rows)| ==> CountsAsWritten(rows)[i] == Counts(rows)[i] + 1
  {
    if rows != [] {
      CountsAsWrittenOverstate(rows[1..]);
      var a, b := GroupCountsAsWritten(rows[0].groups), GroupCounts(rows[0].groups);
      assert |a| == |b| && forall i :: 0 <= i < |a| ==> a[i] == b[i] + 1;
    }
  }

  /** one static-layer granule listed twice: one duplicate, reported as two */
  lemma {:induction false} CountsAsWrittenExample()
    ensures var rows := [MonthRow("2024-01", 2, 1, [Listed(["T001-000001-IW1", "20140403", "S1A"], ["a", "b"])])];
      DuplicateTotal(rows) == 1 && Counts(rows) == [1] && CountsAsWritten(rows) == [2]
  {
  }

  lemma {:induction false} RunSnoc(p: ProductSpec, q: seq<string>, x: string)
    ensures Run(p, q + [x]).Ok? <==> Run(p, q).Ok? && KeyAt(p, x).Some? && MonthAt(p, x).Some?
  {
    assert (q + [x])[..|q|] == q;
    if Run(p, q).Ok? { StepAccepts(p, Run(p, q).value, x); }
  }

  /** the loop fails exactly when some granule has no key or no month */
  lemma {:induction false} RunOk(p: ProductSpec, ids: seq<string>)
    ensures Run(p, ids).Ok? <==> forall i :: 0 <= i < |ids| ==> KeyAt(p, ids[i]).Some? && MonthAt(p, ids[i]).Some?
  {
    if ids != [] {
      var q, x := ids[..|ids| - 1], ids[|ids| - 1];
      assert ids == q + [x];
      RunOk(p, q);
      RunSnoc(p, q, x);
    }
  }

  /** a granule that does not match the pattern stops the run with its identifier */
  lemma {:induction false} UnparsedAborts(p: ProductSpec, ids: seq<string>, i: nat)
    requires i < |ids| && Run(p, ids[..i]).Ok? && Match(p.pattern, ids[i], 0).None?
    ensures Run(p, ids) == Err(Unparsed(ids[i]))
  {
    assert ids[..i + 1][..i] == ids[..i];
    RunFailureSticks(p, ids, i + 1);
  }

  /** a listing that succeeds holds every page's identifiers, in page order */
  function AllIds(pages: seq<Page>): seq<string>
  {
    if pages == [] then [] else pages[0].ids + AllIds(pages[1..])
  }

  lemma {:induction false} FetchedAll(pages: seq<Page>, i: nat)
    requires i < |pages| && Ends(pages)
    requires forall j :: 0 <= j < |pages| - 1 ==> pages[j].after.Some?
    ensures FetchedFrom(pages, i) == AllIds(pages[i..])
    decreases |pages| - i
  {
    assert pages[i..] == [pages[i]] + pages[i + 1..];
    if i + 1 < |pages| {
      FetchedAll(pages, i + 1);
    } else {
      assert pages[i + 1..] == [];
    }
  }

  /** the pages after the first one without a search-after token are never read */
  lemma {:induction false} FetchIgnoresLater(pages: seq<Page>, more: seq<Page>, i: nat)
    requires i < |pages| && Ends(pages) && Ends(pages + more)
    ensures FetchedFrom(pages + more, i) == FetchedFrom(pages, i)
    decreases |pages| - i
  {
    if pages[i].after.Some? { FetchIgnoresLater(pages, more, i + 1); }
  }

  /** `temporal[]` / `revision_date[]` is sent only with a bound, and carries both bounds around a comma */
  lemma {:induction false} QueryRange(ccid: string, start: Option<DateTime>, end: Option<DateTime>, temporal: bool)
    requires start.Some? ==> ValidDateTime(start.value)
    requires end.Some? ==> ValidDateTime(end.value)
    ensures var r := QueryParams(ccid, start, end, temporal);
      && r[..2] == [("collection_concept_id", ccid), ("page_size", "2000")]
      && (start.None? && end.None? <==> |r| == 2)
      && (|r| == 3 ==>
            && r[2].0 == (if temporal then "temporal[]" else "revision_date[]")
            && Split(r[2].1, ',') == [BoundText(start), BoundText(end)])
  {
    SplitPair(BoundText(start), BoundText(end), ',');
  }

  /** the statuses that are retried are client throttling, authorisation and server errors */
  lemma {:induction false} RetriedStatuses(status: int)
    ensures !Fatal(status) ==> 400 <= status < 600
    ensures 200 <= status < 300 ==> Fatal(status)
    ensures Fatal(400) && Fatal(404) && Fatal(501) && !Fatal(429) && !Fatal(503)
  {
  }

  /** the report of a run: every granule counted once, a duplicate for each
    * granule whose key was seen before, and one count per entry adding up
    * to the duplicates */
  lemma {:induction false} DuplicateReport(p: ProductSpec, ids: seq<string>)
    requires Run(p, ids).Ok?
    ensures var r := Finish(p, ids, Run(p, ids).value); var v := ViewOf(p);
      && r.granules == |ids| == GranuleTotal(r.months)
      && r.duplicates == |ids| - |Seen(v, ids)|
      && Sum(r.counts) == r.duplicates
      && (r.maxPerGranule.Some? <==> r.duplicates > 0)
      && StrictlySorted(MonthsOf(r.months))
  {
    var s := Run(p, ids).value;
    RunInv(p, ids);
    ReportTotals(p, ViewOf(p), ids, s);
    ReportMonths(p, ViewOf(p), ids, s);
    ReportCounts(p, ViewOf(p), ids, s);
  }
}
