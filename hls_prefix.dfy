/** `hls_to_s3_prefix.py`: the DSWx-HLS product prefix of an HLS granule
  * identifier, and the set of product directories found under those prefixes. */
module HlsPrefix {
  import opened Base
  import opened Calendar

  datatype PrefixError =
    | BadNumber(field: string)  // `int()` of the year or day-of-year slice raises `ValueError`
    | BadYear(year: int)        // `datetime(year, 1, 1)` raises `ValueError`
    | OutOfRange                // adding the days raises `OverflowError`
    | NoDirectory(key: string)  // `key.split('/')[1]` raises `IndexError`

  /** `dt.datetime(year, 1, 1) + dt.timedelta(doy - 1)` */
  function DayOf(year: int, doy: int): (r: Result<Date, PrefixError>)
    ensures r.Ok? ==> ValidDate(r.value)
  {
    if !(1 <= year <= 9999) then Err(BadYear(year))
    else
      var jan1 := Date(year, 1, 1);
      AddDaysOrdinal(jan1, doy - 1);
      match AddDays(jan1, doy - 1)
      case None => Err(OutOfRange)
      case Some(d) => Ok(d)
  }

  const ProductsRoot := "products/OPERA_L3_DSWx-HLS_"

  /** `format_prefix(hls_id)` */
  function FormatPrefix(hlsId: string): Result<string, PrefixError>
  {
    var tile := Slice(hlsId, 8, 14);
    var timeOfDay := Slice(hlsId, 22, 29);
    match (ParseInt(Slice(hlsId, 15, 19)), ParseInt(Slice(hlsId, 19, 22)))
    case (None, _) => Err(BadNumber("year"))
    case (_, None) => Err(BadNumber("doy"))
    case (Some(year), Some(doy)) =>
      match DayOf(year, doy)
      case Err(e) => Err(e)
      case Ok(d) => Ok(ProductsRoot + tile + "_" + CompactDate(d) + timeOfDay + "Z_")
  }

  // ------------------------------------------------------- the date rule

  /** the date whose ordinal is the `k`-th day after the start of year `y` lies in `y`, on day `k` */
  lemma {:induction false} OrdinalInYear(d: Date, y: int, k: int)
    requires ValidDate(d) && 1 <= y <= 9999 && 1 <= k <= YearDays(y)
    requires Ordinal(d) == DaysBeforeYear(y) + k
    ensures d.year == y && DayOfYear(d) == k
  {
    OrdinalBounds(d);
    YearStep(y);
    if d.year < y {
      DaysBeforeYearMonotone(d.year + 1, y);
    } else if d.year > y {
      DaysBeforeYearMonotone(y + 1, d.year);
    }
  }

  lemma {:induction false} JanuaryFirst(year: int)
    requires 1 <= year <= 9999
    ensures ValidDate(Date(year, 1, 1)) && Ordinal(Date(year, 1, 1)) == DaysBeforeYear(year) + 1
  {
  }

  lemma {:induction false} DayInRange(year: int, doy: int)
    requires 1 <= year <= 9999 && 1 <= doy <= YearDays(year)
    ensures 1 <= DaysBeforeYear(year) + doy <= MaxOrdinal
  {
    OrdinalBounds(Date(year, 1, 1));
    YearStep(year);
    DaysBeforeYearMonotone(year + 1, 10000);
  }

  /** counting `doy - 1` days on from January 1st stays inside the year */
  lemma {:induction false} FromJanuary(year: int, doy: int)
    requires 1 <= year <= 9999 && 1 <= doy <= YearDays(year)
    ensures AddDays(Date(year, 1, 1), doy - 1).Some?
    ensures ValidDate(AddDays(Date(year, 1, 1), doy - 1).value)
    ensures Ordinal(AddDays(Date(year, 1, 1), doy - 1).value) == DaysBeforeYear(year) + doy
  {
    JanuaryFirst(year);
    DayInRange(year, doy);
    AddDaysOrdinal(Date(year, 1, 1), doy - 1);
  }

  /** a day of year inside the year lands in that year, on that day of the year */
  lemma {:induction false} DayOfInYear(year: int, doy: int)
    requires 1 <= year <= 9999 && 1 <= doy <= YearDays(year)
    ensures DayOf(year, doy).Ok?
    ensures DayOf(year, doy).value.year == year && DayOfYear(DayOf(year, doy).value) == doy
  {
    FromJanuary(year, doy);
    var d := AddDays(Date(year, 1, 1), doy - 1).value;
    assert DayOf(year, doy) == Ok(d);
    OrdinalInYear(d, year, doy);
  }

  /** day 60 is February 29th in a leap year and March 1st otherwise */
  lemma {:induction false} DaySixty(year: int)
    requires 1 <= year <= 9999
    ensures IsLeap(year) ==> DayOf(year, 60) == Ok(Date(year, 2, 29))
    ensures !IsLeap(year) ==> DayOf(year, 60) == Ok(Date(year, 3, 1))
  {
    var e := if IsLeap(year) then Date(year, 2, 29) else Date(year, 3, 1);
    assert DaysBeforeMonth(year, 2) == 31;
    assert DaysBeforeMonth(year, 3) == 31 + DaysInMonth(year, 2);
    AddDaysIs(Date(year, 1, 1), 59, e);
  }

  /** day 0 is December 31st of the year before, as `timedelta(-1)` steps back */
  lemma {:induction false} DayZero(year: int)
    requires 2 <= year <= 9999
    ensures DayOf(year, 0) == Ok(Date(year - 1, 12, 31))
  {
    YearEnd(Date(year - 1, 12, 31));
    AddDaysIs(Date(year, 1, 1), -1, Date(year - 1, 12, 31));
  }

  /** year 0 has no January 1st */
  lemma {:induction false} YearZero(doy: int)
    ensures DayOf(0, doy) == Err(BadYear(0))
  {}

  // ------------------------------------------------ the identifier layout

  /** an HLS identifier laid out as `HLS.S30.<tile>.<YYYY><DDD><Thhmmss>.v2.0` */
  function HlsId(product: string, tile: string, year: nat, doy: nat, clock: string, rest: string): string
  {
    "HLS." + product + "." + tile + "." + Digits(year, 4) + Digits(doy, 3) + clock + rest
  }

  /** the prefix of a well-formed identifier names its tile, its calendar date and its time of day */
  lemma {:induction false} FormatPrefixOf(product: string, tile: string, year: nat, doy: nat, clock: string, rest: string)
    requires |product| == 3 && |tile| == 6 && |clock| == 7
    requires 1 <= year <= 9999 && 1 <= doy <= 999
    ensures var r := FormatPrefix(HlsId(product, tile, year, doy, clock, rest));
      DayOf(year, doy).Ok? ==> r == Ok(ProductsRoot + tile + "_" + CompactDate(DayOf(year, doy).value) + clock + "Z_")
    ensures DayOf(year, doy).Err? ==> FormatPrefix(HlsId(product, tile, year, doy, clock, rest)) == Err(OutOfRange)
  {
    var s := HlsId(product, tile, year, doy, clock, rest);
    assert Slice(s, 8, 14) == tile;
    assert Slice(s, 15, 19) == Digits(year, 4);
    assert Slice(s, 19, 22) == Digits(doy, 3);
    assert Slice(s, 22, 29) == clock;
    ParseIntDigits(Digits(year, 4));
    ParseIntDigits(Digits(doy, 3));
    DigitsRoundTrip(year, 4);
    DigitsRoundTrip(doy, 3);
  }

  /** the first 31 days of a year are in January */
  lemma {:induction false} January(year: int, doy: int)
    requires 1 <= year <= 9999 && 1 <= doy <= 31
    ensures DayOf(year, doy) == Ok(Date(year, 1, doy))
  {
    JanuaryFirst(year);
    AddDaysIs(Date(year, 1, 1), doy - 1, Date(year, 1, doy));
  }

  /** a slice that is not a number stops the script */
  lemma {:induction false} ShortIdentifier(s: string)
    requires |s| <= 15
    ensures FormatPrefix(s) == Err(BadNumber("year"))
  {
    assert Slice(s, 15, 19) == [];
  }

  // ------------------------------------------------------- the main loop

  /** the product directory of a listed key: its second `/`-separated field */
  function Directory(key: string): Result<string, PrefixError>
  {
    var parts := Split(key, '/');
    if |parts| < 2 then Err(NoDirectory(key)) else Ok(parts[1])
  }

  /** the directories of `keys`, added to `prods`; the first key without one stops the run */
  function AddDirectories(prods: set<string>, keys: seq<string>): Result<set<string>, PrefixError>
    decreases |keys|
  {
    if keys == [] then Ok(prods)
    else match Directory(keys[0])
      case Err(e) => Err(e)
      case Ok(d) => AddDirectories(prods + {d}, keys[1..])
  }

  /** how a line becomes a prefix; the script uses `FormatPrefix` */
  type Prefixes = string -> Result<string, PrefixError>

  /** the `prods` set after the lines `lines`; `listing(prefix)` stands for the bucket
    * listing under `prefix` */
  function Products(lines: seq<string>, prefixOf: Prefixes, listing: string -> seq<string>): Result<set<string>, PrefixError>
  {
    if lines == [] then Ok({})
    else match Products(lines[..|lines| - 1], prefixOf, listing)
      case Err(e) => Err(e)
      case Ok(prods) =>
        match prefixOf(lines[|lines| - 1])
        case Err(e) => Err(e)
        case Ok(prefix) => AddDirectories(prods, listing(prefix))
  }

  /** the loop over one listing */
  method CollectDirectories(prods0: set<string>, keys: seq<string>) returns (r: Result<set<string>, PrefixError>)
    ensures r == AddDirectories(prods0, keys)
  {
    var prods := prods0;
    for i := 0 to |keys|
      invariant AddDirectories(prods0, keys) == AddDirectories(prods, keys[i..])
    {
      assert keys[i..][1..] == keys[i + 1..];
      var parts := Split(keys[i], '/');
      if |parts| < 2 {
        return Err(NoDirectory(keys[i]));
      }
      prods := prods + {parts[1]};
    }
    r := Ok(prods);
  }

  /** the loop over the input file's lines */
  method CollectProducts(lines: seq<string>, prefixOf: Prefixes, listing: string -> seq<string>) returns (r: Result<set<string>, PrefixError>)
    ensures r == Products(lines, prefixOf, listing)
  {
    var prods: set<string> := {};
    for i := 0 to |lines|
      invariant Products(lines[..i], prefixOf, listing) == Ok(prods)
    {
      assert lines[..i + 1][..i] == lines[..i];
      var prefix := prefixOf(lines[i]);
      if prefix.Err? {
        ProductsStopped(lines, prefixOf, listing, i + 1);
        return Err(prefix.error);
      }
      var next := CollectDirectories(prods, listing(prefix.value));
      if next.Err? {
        ProductsStopped(lines, prefixOf, listing, i + 1);
        return next;
      }
      prods := next.value;
    }
    assert lines[..|lines|] == lines;
    r := Ok(prods);
  }

  /** an error stops the run: no later line changes it */
  lemma {:induction false} ProductsStopped(lines: seq<string>, prefixOf: Prefixes, listing: string -> seq<string>, i: nat)
    requires i <= |lines| && Products(lines[..i], prefixOf, listing).Err?
    ensures Products(lines, prefixOf, listing) == Products(lines[..i], prefixOf, listing)
    decreases |lines| - i
  {
    if i < |lines| {
      assert lines[..i + 1][..i] == lines[..i];
      ProductsStopped(lines, prefixOf, listing, i + 1);
    } else {
      assert lines[..i] == lines;
    }
  }

  /** the collected set holds exactly the directories of the listed keys */
  lemma {:induction false} AddDirectoriesAre(prods: set<string>, keys: seq<string>)
    requires AddDirectories(prods, keys).Ok?
    ensures forall k :: k in keys ==> Directory(k).Ok?
    ensures AddDirectories(prods, keys).value == prods + set k | k in keys :: Directory(k).value
    decreases |keys|
  {
    if keys != [] {
      AddDirectoriesAre(prods + {Directory(keys[0]).value}, keys[1..]);
      assert keys == [keys[0]] + keys[1..];
    }
  }

  /** one printed line */
  function Line(p: string): string { "s3://opera-pst-rs-pop1/products/" + p + "/" }

  /** the printed lines; a set, so each directory is printed once */
  function Printed(prods: set<string>): set<string>
  {
    set p | p in prods :: Line(p)
  }

  lemma {:induction false} LineInjective(p: string, q: string)
    requires Line(p) == Line(q)
    ensures p == q
  {
    var n := |"s3://opera-pst-rs-pop1/products/"|;
    assert Line(p)[n..|Line(p)| - 1] == p;
    assert Line(q)[n..|Line(q)| - 1] == q;
  }

  lemma {:induction false} PrintedOnce(prods: set<string>)
    ensures |Printed(prods)| == |prods|
    decreases |prods|
  {
    if prods != {} {
      var x :| x in prods;
      var rest := prods - {x};
      PrintedOnce(rest);
      assert Printed(prods) == Printed(rest) + {Line(x)};
      if Line(x) in Printed(rest) {
        var y :| y in rest && Line(y) == Line(x);
        LineInjective(x, y);
      }
    }
  }
}
