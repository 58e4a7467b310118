/** The proleptic Gregorian calendar of Python's `datetime` (years 1..9999),
  * day ordinals as `date.toordinal()` numbers them (0001-01-01 is day 1),
  * instants in microseconds, and the fixed-width timestamp layouts the
  * scripts parse and print. */
module Calendar {
  import opened Base

  predicate IsLeap(y: int) { y % 4 == 0 && (y % 100 != 0 || y % 400 == 0) }

  function YearDays(y: int): int { if IsLeap(y) then 366 else 365 }

  function DaysInMonth(y: int, m: int): (r: int)
    requires 1 <= m <= 12
    ensures 28 <= r <= 31
  {
    if m == 2 then (if IsLeap(y) then 29 else 28)
    else if m == 4 || m == 6 || m == 9 || m == 11 then 30
    else 31
  }

  /** days of year `y` before the first of month `m` (`m == 13` gives the whole year) */
  function DaysBeforeMonth(y: int, m: int): int
    requires 1 <= m <= 13
  {
    if m == 1 then 0 else DaysBeforeMonth(y, m - 1) + DaysInMonth(y, m - 1)
  }

  /** days before January 1st of year `y` */
  function DaysBeforeYear(y: int): int
    requires y >= 1
  {
    var p := y - 1;
    365 * p + p / 4 - p / 100 + p / 400
  }

  datatype Date = Date(year: int, month: int, day: int)

  /** what `datetime.date(year, month, day)` accepts */
  predicate ValidDate(d: Date)
  {
    1 <= d.year <= 9999 && 1 <= d.month <= 12 && 1 <= d.day <= DaysInMonth(d.year, d.month)
  }

  lemma {:induction false} MonthsFillYear(y: int, m: int)
    requires 1 <= m <= 12
    ensures DaysBeforeMonth(y, m) + DaysInMonth(y, m) <= YearDays(y)
    ensures DaysBeforeMonth(y, 13) == YearDays(y)
    ensures DaysBeforeMonth(y, m) >= m - 1
  {
    assert DaysBeforeMonth(y, 2) == 31;
    assert DaysBeforeMonth(y, 3) == 31 + DaysInMonth(y, 2);
    assert DaysBeforeMonth(y, 4) == 62 + DaysInMonth(y, 2);
    assert DaysBeforeMonth(y, 5) == 92 + DaysInMonth(y, 2);
    assert DaysBeforeMonth(y, 6) == 123 + DaysInMonth(y, 2);
    assert DaysBeforeMonth(y, 7) == 153 + DaysInMonth(y, 2);
    assert DaysBeforeMonth(y, 8) == 184 + DaysInMonth(y, 2);
    assert DaysBeforeMonth(y, 9) == 215 + DaysInMonth(y, 2);
    assert DaysBeforeMonth(y, 10) == 245 + DaysInMonth(y, 2);
    assert DaysBeforeMonth(y, 11) == 276 + DaysInMonth(y, 2);
    assert DaysBeforeMonth(y, 12) == 306 + DaysInMonth(y, 2);
    assert DaysBeforeMonth(y, 13) == 337 + DaysInMonth(y, 2);
  }

  /** day of the year, as `%j` prints it */
  function DayOfYear(d: Date): (r: int)
    requires ValidDate(d)
    ensures 1 <= r <= YearDays(d.year)
  {
    MonthsFillYear(d.year, d.month);
    DaysBeforeMonth(d.year, d.month) + d.day
  }

  /** `date.toordinal()` */
  function Ordinal(d: Date): int
    requires ValidDate(d)
  {
    DaysBeforeYear(d.year) + DayOfYear(d)
  }

  const MaxOrdinal := 3652059

  lemma {:induction false} YearStep(y: int)
    requires y >= 1
    ensures DaysBeforeYear(y + 1) == DaysBeforeYear(y) + YearDays(y)
  {
    assert y / 4 == (y - 1) / 4 + (if y % 4 == 0 then 1 else 0);
    assert y / 100 == (y - 1) / 100 + (if y % 100 == 0 then 1 else 0);
    assert y / 400 == (y - 1) / 400 + (if y % 400 == 0 then 1 else 0);
  }

  lemma {:induction false} DaysBeforeYearMonotone(a: int, b: int)
    requires 1 <= a <= b
    ensures DaysBeforeYear(a) + 365 * (b - a) <= DaysBeforeYear(b)
    decreases b - a
  {
    if a < b {
      YearStep(a);
      DaysBeforeYearMonotone(a + 1, b);
    }
  }

  lemma {:induction false} DaysBeforeMonthMonotone(y: int, a: int, b: int)
    requires 1 <= a <= b <= 13
    ensures DaysBeforeMonth(y, a) + 28 * (b - a) <= DaysBeforeMonth(y, b)
    decreases b - a
  {
    if a < b { DaysBeforeMonthMonotone(y, a, b - 1); }
  }

  lemma {:induction false} OrdinalBounds(d: Date)
    requires ValidDate(d)
    ensures DaysBeforeYear(d.year) < Ordinal(d) <= DaysBeforeYear(d.year + 1)
    ensures 1 <= Ordinal(d) <= MaxOrdinal
  {
    YearStep(d.year);
    DaysBeforeYearMonotone(1, d.year);
    DaysBeforeYearMonotone(d.year + 1, 10000);
  }

  /** distinct valid dates have distinct ordinals */
  lemma {:induction false} OrdinalInjective(d: Date, e: Date)
    requires ValidDate(d) && ValidDate(e) && Ordinal(d) == Ordinal(e)
    ensures d == e
  {
    if d.year < e.year { YearOrder(d, e); }
    if e.year < d.year { YearOrder(e, d); }
    if d.month < e.month { MonthOrder(d, e); }
    if e.month < d.month { MonthOrder(e, d); }
  }

  /** dates of an earlier year come first */
  lemma {:induction false} YearOrder(d: Date, e: Date)
    requires ValidDate(d) && ValidDate(e) && d.year < e.year
    ensures Ordinal(d) < Ordinal(e)
  {
    OrdinalBounds(d);
    OrdinalBounds(e);
    DaysBeforeYearMonotone(d.year + 1, e.year);
  }

  /** within a year, dates of an earlier month come first */
  lemma {:induction false} MonthOrder(d: Date, e: Date)
    requires ValidDate(d) && ValidDate(e) && d.year == e.year && d.month < e.month
    ensures Ordinal(d) < Ordinal(e)
  {
    assert DaysBeforeMonth(d.year, d.month + 1) == DaysBeforeMonth(d.year, d.month) + DaysInMonth(d.year, d.month);
    DaysBeforeMonthMonotone(d.year, d.month + 1, e.month);
  }

  /** the following day, or None after 9999-12-31 (`OverflowError`) */
  function NextDay(d: Date): Option<Date>
    requires ValidDate(d)
  {
    if d.day < DaysInMonth(d.year, d.month) then Some(Date(d.year, d.month, d.day + 1))
    else if d.month < 12 then Some(Date(d.year, d.month + 1, 1))
    else if d.year < 9999 then Some(Date(d.year + 1, 1, 1))
    else None
  }

  /** the preceding day, or None before 0001-01-01 */
  function PrevDay(d: Date): Option<Date>
    requires ValidDate(d)
  {
    if d.day > 1 then Some(Date(d.year, d.month, d.day - 1))
    else if d.month > 1 then Some(Date(d.year, d.month - 1, DaysInMonth(d.year, d.month - 1)))
    else if d.year > 1 then Some(Date(d.year - 1, 12, 31))
    else None
  }

  lemma {:induction false} NextDayOrdinal(d: Date)
    requires ValidDate(d)
    ensures NextDay(d).Some? ==> ValidDate(NextDay(d).value) && Ordinal(NextDay(d).value) == Ordinal(d) + 1
    ensures NextDay(d).None? ==> Ordinal(d) == MaxOrdinal
  {
    if d.day < DaysInMonth(d.year, d.month) {
      assert Ordinal(Date(d.year, d.month, d.day + 1)) == Ordinal(d) + 1;
    } else if d.month < 12 {
      assert DaysBeforeMonth(d.year, d.month + 1) == DaysBeforeMonth(d.year, d.month) + DaysInMonth(d.year, d.month);
    } else {
      YearEnd(d);
    }
  }

  /** December 31st is the last day of its year */
  lemma {:induction false} YearEnd(d: Date)
    requires ValidDate(d) && d.month == 12 && d.day == 31
    ensures Ordinal(d) == DaysBeforeYear(d.year + 1)
    ensures d.year < 9999 ==> Ordinal(Date(d.year + 1, 1, 1)) == Ordinal(d) + 1
    ensures d.year == 9999 ==> Ordinal(d) == MaxOrdinal
  {
    MonthsFillYear(d.year, 12);
    YearStep(d.year);
  }

  lemma {:induction false} PrevDayOrdinal(d: Date)
    requires ValidDate(d)
    ensures PrevDay(d).Some? ==> ValidDate(PrevDay(d).value) && Ordinal(PrevDay(d).value) == Ordinal(d) - 1
    ensures PrevDay(d).None? ==> Ordinal(d) == 1
  {
    if d.day > 1 {
      assert Ordinal(Date(d.year, d.month, d.day - 1)) == Ordinal(d) - 1;
    } else if d.month > 1 {
      assert DaysBeforeMonth(d.year, d.month) == DaysBeforeMonth(d.year, d.month - 1) + DaysInMonth(d.year, d.month - 1);
    } else if d.year > 1 {
      YearEnd(Date(d.year - 1, 12, 31));
    }
  }

  /** `d + timedelta(days=k)`; None where Python raises `OverflowError` */
  function AddDays(d: Date, k: int): Option<Date>
    requires ValidDate(d)
    decreases if k < 0 then -k else k
  {
    if k == 0 then Some(d)
    else if k > 0 then
      (NextDayOrdinal(d);
       match NextDay(d) case None => None case Some(e) => AddDays(e, k - 1))
    else
      (PrevDayOrdinal(d);
       match PrevDay(d) case None => None case Some(e) => AddDays(e, k + 1))
  }

  /** adding `k` days moves the ordinal by exactly `k`, and fails exactly outside years 1..9999 */
  lemma {:induction false} AddDaysOrdinal(d: Date, k: int)
    requires ValidDate(d)
    ensures AddDays(d, k).Some? <==> 1 <= Ordinal(d) + k <= MaxOrdinal
    ensures AddDays(d, k).Some? ==> ValidDate(AddDays(d, k).value) && Ordinal(AddDays(d, k).value) == Ordinal(d) + k
    decreases if k < 0 then -k else k
  {
    OrdinalBounds(d);
    if k > 0 {
      NextDayOrdinal(d);
      if NextDay(d).Some? { AddDaysOrdinal(NextDay(d).value, k - 1); }
    } else if k < 0 {
      PrevDayOrdinal(d);
      if PrevDay(d).Some? { AddDaysOrdinal(PrevDay(d).value, k + 1); }
    }
  }

  /** the date `k` days after `d` is the valid date whose ordinal is `Ordinal(d) + k` */
  lemma {:induction false} AddDaysIs(d: Date, k: int, e: Date)
    requires ValidDate(d) && ValidDate(e) && Ordinal(e) == Ordinal(d) + k
    ensures AddDays(d, k) == Some(e)
  {
    OrdinalBounds(e);
    AddDaysOrdinal(d, k);
    OrdinalInjective(AddDays(d, k).value, e);
  }

  // ----------------------------------------------------------- date-times

  datatype DateTime = DateTime(date: Date, hour: int, minute: int, second: int, micro: int)

  predicate ValidTime(h: int, mi: int, s: int, us: int)
  {
    0 <= h <= 23 && 0 <= mi <= 59 && 0 <= s <= 59 && 0 <= us <= 999999
  }

  predicate ValidDateTime(t: DateTime)
  {
    ValidDate(t.date) && ValidTime(t.hour, t.minute, t.second, t.micro)
  }

  /** the instant of a UTC date-time, in microseconds since 0001-01-01T00:00:00 */
  function Micros(t: DateTime): int
    requires ValidDateTime(t)
  {
    ((Ordinal(t.date) - 1) * 86400 + t.hour * 3600 + t.minute * 60 + t.second) * 1000000 + t.micro
  }

  /** a valid date-time, as `strptime` and `datetime.now` return it */
  type UtcTime = t: DateTime | ValidDateTime(t) witness DateTime(Date(1, 1, 1), 0, 0, 0, 0)

  /** the same day at 00:00:00 */
  function Midnight(t: DateTime): DateTime { DateTime(t.date, 0, 0, 0, 0) }

  function Pow10(w: nat): nat { if w == 0 then 1 else 10 * Pow10(w - 1) }

  /** the last `w` decimal digits of `n`, zero-padded (`%0wd` for `n < 10^w`) */
  function Digits(n: nat, w: nat): (s: string)
    ensures |s| == w && AllDigits(s)
  {
    if w == 0 then "" else Digits(n / 10, w - 1) + [DigitChar(n % 10)]
  }

  lemma {:induction false} DigitsRoundTrip(n: nat, w: nat)
    requires n < Pow10(w)
    ensures NatOf(Digits(n, w)) == n
  {
    if w > 0 {
      DigitsRoundTrip(n / 10, w - 1);
      var s := Digits(n, w);
      assert s[..|s| - 1] == Digits(n / 10, w - 1);
    }
  }

  lemma {:induction false} NatOfRoundTrip(t: string)
    requires AllDigits(t)
    ensures Digits(NatOf(t), |t|) == t
    ensures NatOf(t) < Pow10(|t|)
  {
    if t != [] {
      var p := t[..|t| - 1];
      NatOfRoundTrip(p);
      assert NatOf(t) / 10 == NatOf(p) && NatOf(t) % 10 == DigitValue(t[|t| - 1]);
      assert t == p + [t[|t| - 1]];
    }
  }

  /** `date.isoformat()`: `YYYY-MM-DD` */
  function IsoDate(d: Date): string
    requires ValidDate(d)
  {
    Digits(d.year, 4) + "-" + Digits(d.month, 2) + "-" + Digits(d.day, 2)
  }

  /** `strftime('%Y-%m')` */
  function YearMonth(d: Date): string requires ValidDate(d) { Digits(d.year, 4) + "-" + Digits(d.month, 2) }

  /** `strftime('%Y%m%d')` */
  function CompactDate(d: Date): string requires ValidDate(d) { Digits(d.year, 4) + Digits(d.month, 2) + Digits(d.day, 2) }

  /** `strftime('%Y-%m-%dT%H:%M:%SZ')` */
  function IsoStampZ(t: DateTime): string
    requires ValidDateTime(t)
  {
    IsoDate(t.date) + "T" + Digits(t.hour, 2) + ":" + Digits(t.minute, 2) + ":" + Digits(t.second, 2) + "Z"
  }

  // --------------------------------------------------- fixed-shape parsing

  /** the `n` decimal digits starting at `i`, if they are all digits */
  function DigitsAt(s: string, i: nat, n: nat): (r: Option<nat>)
    ensures r.Some? ==> i + n <= |s| && AllDigits(s[i..i + n]) && r.value == NatOf(s[i..i + n])
  {
    if i + n <= |s| && AllDigits(s[i..i + n]) then Some(NatOf(s[i..i + n])) else None
  }

  /** `datetime(y, m, d, h, mi, s, us)`, None where it raises `ValueError` */
  function MakeDateTime(y: int, m: int, d: int, h: int, mi: int, s: int, us: int): (r: Option<DateTime>)
    ensures r.Some? ==> ValidDateTime(r.value)
    ensures r.Some? <==> 1 <= y <= 9999 && 1 <= m <= 12 && ValidDate(Date(y, m, d)) && ValidTime(h, mi, s, us)
    ensures r.Some? ==> r.value == DateTime(Date(y, m, d), h, mi, s, us)
  {
    if 1 <= y <= 9999 && 1 <= m <= 12 && 1 <= d <= DaysInMonth(y, m) && ValidTime(h, mi, s, us)
    then Some(DateTime(Date(y, m, d), h, mi, s, us))
    else None
  }

  /** `datetime.strptime(s, '%Y%m%dT%H%M%SZ')` on the fixed 16-character layout */
  function ParseCompactStamp(s: string): Option<DateTime>
  {
    if |s| != 16 || s[8] != 'T' || s[15] != 'Z' then None
    else match (DigitsAt(s, 0, 4), DigitsAt(s, 4, 2), DigitsAt(s, 6, 2), DigitsAt(s, 9, 2), DigitsAt(s, 11, 2), DigitsAt(s, 13, 2))
      case (Some(y), Some(m), Some(d), Some(h), Some(mi), Some(sec)) => MakeDateTime(y, m, d, h, mi, sec, 0)
      case _ => None
  }

  /** `datetime.strptime(s, '%Y%m%d')` on the fixed 8-character layout */
  function ParseCompactDate(s: string): Option<DateTime>
  {
    if |s| != 8 then None
    else match (DigitsAt(s, 0, 4), DigitsAt(s, 4, 2), DigitsAt(s, 6, 2))
      case (Some(y), Some(m), Some(d)) => MakeDateTime(y, m, d, 0, 0, 0, 0)
      case _ => None
  }

  /** the ISO date of a parsed compact stamp is its first eight characters, dashed */
  lemma {:induction false} CompactStampDate(s: string)
    requires ParseCompactStamp(s).Some?
    ensures IsoDate(ParseCompactStamp(s).value.date) == s[0..4] + "-" + s[4..6] + "-" + s[6..8]
    ensures YearMonth(ParseCompactStamp(s).value.date) == s[0..4] + "-" + s[4..6]
  {
    NatOfRoundTrip(s[0..4]);
    NatOfRoundTrip(s[4..6]);
    NatOfRoundTrip(s[6..8]);
  }

  lemma {:induction false} CompactDateDate(s: string)
    requires ParseCompactDate(s).Some?
    ensures IsoDate(ParseCompactDate(s).value.date) == s[0..4] + "-" + s[4..6] + "-" + s[6..8]
    ensures YearMonth(ParseCompactDate(s).value.date) == s[0..4] + "-" + s[4..6]
  {
    NatOfRoundTrip(s[0..4]);
    NatOfRoundTrip(s[4..6]);
    NatOfRoundTrip(s[6..8]);
  }

  // ---------------------------------------------------- ISO 8601 stamps

  /** a parsed `datetime`: its wall-clock fields and, when aware, its UTC offset in seconds */
  datatype Stamp = Stamp(local: DateTime, offset: Option<int>)

  /** what `datetime` accepts: valid fields, an offset strictly inside one day */
  predicate ValidStamp(t: Stamp)
  {
    ValidDateTime(t.local) && (t.offset.Some? ==> -86400 < t.offset.value < 86400)
  }

  /** the instant an aware stamp denotes, in microseconds since 0001-01-01 UTC */
  function Instant(t: Stamp): int
    requires ValidStamp(t)
  {
    Micros(t.local) - (if t.offset.Some? then t.offset.value * 1000000 else 0)
  }

  /** the first `+` or `-` of `t` (its length when there is none) */
  function FirstSign(t: string): (j: nat)
    ensures j <= |t| && (j < |t| ==> t[j] == '+' || t[j] == '-')
    ensures forall k :: 0 <= k < j ==> t[k] != '+' && t[k] != '-'
  {
    if t == [] then 0 else if t[0] == '+' || t[0] == '-' then 0 else 1 + FirstSign(t[1..])
  }

  /** `HH`, `HH:MM`, `HH:MM:SS`, `HH:MM:SS.fff` or `HH:MM:SS.ffffff`, as (hour, minute, second, microsecond) */
  function ParseClock(c: string): Option<(nat, nat, nat, nat)>
  {
    if |c| !in {2, 5, 8, 12, 15} then None
    else if |c| >= 5 && c[2] != ':' then None
    else if |c| >= 8 && c[5] != ':' then None
    else if |c| >= 12 && c[8] != '.' then None
    else match (DigitsAt(c, 0, 2), if |c| >= 5 then DigitsAt(c, 3, 2) else Some(0), if |c| >= 8 then DigitsAt(c, 6, 2) else Some(0),
                if |c| == 12 then DigitsAt(c, 9, 3) else if |c| == 15 then DigitsAt(c, 9, 6) else Some(0))
      case (Some(h), Some(mi), Some(sec), Some(f)) => Some((h, mi, sec, if |c| == 12 then f * 1000 else f))
      case _ => None
  }

  /** an empty offset (naive) or `+HH:MM` / `-HH:MM`, in seconds east of UTC */
  function ParseOffset(z: string): Option<Option<int>>
  {
    if z == [] then Some(None)
    else if |z| != 6 || (z[0] != '+' && z[0] != '-') || z[3] != ':' then None
    else match (DigitsAt(z, 1, 2), DigitsAt(z, 4, 2))
      case (Some(hh), Some(mm)) =>
        if hh < 24 && mm < 60 then Some(Some((if z[0] == '-' then -1 else 1) * (hh * 3600 + mm * 60))) else None
      case _ => None
  }

  /** `datetime.fromisoformat(s)`: `YYYY-MM-DD`, optionally followed by one
    * separator character, a clock and an offset; None where it raises `ValueError` */
  function ParseIso(s: string): (r: Option<Stamp>)
    ensures r.Some? ==> ValidStamp(r.value)
  {
    if |s| < 10 || s[4] != '-' || s[7] != '-' then None
    else match (DigitsAt(s, 0, 4), DigitsAt(s, 5, 2), DigitsAt(s, 8, 2))
      case (Some(y), Some(m), Some(d)) =>
        if |s| == 10 then
          (match MakeDateTime(y, m, d, 0, 0, 0, 0)
           case None => None
           case Some(t) => Some(Stamp(t, None)))
        else ParseAfterDate(y, m, d, s[11..])
      case _ => None
  }

  /** the clock and offset after the separator, on the given date */
  function ParseAfterDate(y: nat, m: nat, d: nat, t: string): (r: Option<Stamp>)
    ensures r.Some? ==> ValidStamp(r.value)
  {
    var j := FirstSign(t);
    match (ParseClock(t[..j]), ParseOffset(t[j..]))
    case (Some((h, mi, sec, us)), Some(z)) =>
      (match MakeDateTime(y, m, d, h, mi, sec, us)
       case None => None
       case Some(dt) => Some(Stamp(dt, z)))
    case _ => None
  }

  /** `datetime.isoformat()`: microseconds only when non-zero, the offset only when aware */
  function IsoFormat(t: Stamp): string
    requires ValidStamp(t) && (t.offset.Some? ==> t.offset.value % 60 == 0)
  {
    IsoDate(t.local.date) + "T" + ClockText(t.local) + OffsetText(t.offset)
  }

  function OffsetText(z: Option<int>): string
    requires z.Some? ==> -86400 < z.value < 86400
  {
    match z
    case None => ""
    case Some(o) =>
      var a := if o < 0 then -o else o;
      (if o < 0 then "-" else "+") + Digits(a / 3600, 2) + ":" + Digits(a % 3600 / 60, 2)
  }

  lemma {:induction false} DigitsAtOf(s: string, i: nat, n: nat, v: nat)
    requires i + n <= |s| && v < Pow10(n) && s[i..i + n] == Digits(v, n)
    ensures DigitsAt(s, i, n) == Some(v)
  {
    DigitsRoundTrip(v, n);
  }

  lemma {:induction false} ClockRoundTrip(c: DateTime)
    requires ValidDateTime(c)
    ensures ParseClock(ClockText(c)) == Some((c.hour, c.minute, c.second, c.micro))
  {
    var text := ClockText(c);
    var h, m, sec := Digits(c.hour, 2), Digits(c.minute, 2), Digits(c.second, 2);
    var tail := if c.micro != 0 then "." + Digits(c.micro, 6) else "";
    assert text == h + ":" + m + ":" + sec + tail;
    assert text[0..2] == h && text[3..5] == m && text[6..8] == sec;
    DigitsAtOf(text, 0, 2, c.hour);
    DigitsAtOf(text, 3, 2, c.minute);
    DigitsAtOf(text, 6, 2, c.second);
    if c.micro != 0 {
      assert text[9..15] == Digits(c.micro, 6);
      DigitsAtOf(text, 9, 6, c.micro);
    }
    ParseClockFull(text, c.hour, c.minute, c.second, c.micro);
  }

  /** the two lengths `isoformat` writes a clock in */
  lemma {:induction false} ParseClockFull(c: string, h: nat, mi: nat, sec: nat, f: nat)
    requires |c| == 8 || |c| == 15
    requires c[2] == ':' && c[5] == ':' && (|c| == 15 ==> c[8] == '.')
    requires DigitsAt(c, 0, 2) == Some(h) && DigitsAt(c, 3, 2) == Some(mi) && DigitsAt(c, 6, 2) == Some(sec)
    requires |c| == 15 ==> DigitsAt(c, 9, 6) == Some(f)
    requires |c| == 8 ==> f == 0
    ensures ParseClock(c) == Some((h, mi, sec, f))
  {
  }

  lemma {:induction false} OffsetRoundTrip(z: Option<int>)
    requires z.Some? ==> -86400 < z.value < 86400 && z.value % 60 == 0
    ensures ParseOffset(OffsetText(z)) == Some(z)
  {
    if z.Some? {
      var o := z.value;
      var a := if o < 0 then -o else o;
      var hh, mm := a / 3600, a % 3600 / 60;
      OffsetSplit(a);
      var text := OffsetText(z);
      assert text == (if o < 0 then "-" else "+") + Digits(hh, 2) + ":" + Digits(mm, 2);
      assert text[1..3] == Digits(hh, 2) && text[4..6] == Digits(mm, 2);
      DigitsAtOf(text, 1, 2, hh);
      DigitsAtOf(text, 4, 2, mm);
      ParseOffsetOf(text, hh, mm);
      assert (if o < 0 then -1 else 1) * a == o;
    }
  }

  lemma {:induction false} OffsetSplit(a: int)
    requires 0 <= a < 86400 && a % 60 == 0
    ensures a / 3600 < 24 && a % 3600 / 60 < 60
    ensures a / 3600 * 3600 + a % 3600 / 60 * 60 == a
  {
  }

  lemma {:induction false} ParseOffsetOf(z: string, hh: nat, mm: nat)
    requires |z| == 6 && (z[0] == '+' || z[0] == '-') && z[3] == ':'
    requires DigitsAt(z, 1, 2) == Some(hh) && DigitsAt(z, 4, 2) == Some(mm) && hh < 24 && mm < 60
    ensures ParseOffset(z) == Some(Some((if z[0] == '-' then -1 else 1) * (hh * 3600 + mm * 60)))
  {
  }

  /** the text of a clock, as `isoformat` writes it */
  function ClockText(c: DateTime): string
    requires ValidDateTime(c)
  {
    Digits(c.hour, 2) + ":" + Digits(c.minute, 2) + ":" + Digits(c.second, 2)
    + (if c.micro != 0 then "." + Digits(c.micro, 6) else "")
  }

  lemma {:induction false} IsoDatePrefix(d: Date, rest: string)
    requires ValidDate(d) && rest != []
    ensures ParseIso(IsoDate(d) + "T" + rest) == ParseAfterDate(d.year, d.month, d.day, rest)
  {
    var s := IsoDate(d) + "T" + rest;
    DigitsAtOf(s, 0, 4, d.year);
    DigitsAtOf(s, 5, 2, d.month);
    DigitsAtOf(s, 8, 2, d.day);
    assert s[11..] == rest;
  }

  lemma {:induction false} FirstSignAfter(a: string, b: string)
    requires forall k :: 0 <= k < |a| ==> a[k] != '+' && a[k] != '-'
    requires b == [] || b[0] == '+' || b[0] == '-'
    ensures FirstSign(a + b) == |a|
  {
    if a != [] {
      assert (a + b)[1..] == a[1..] + b;
      FirstSignAfter(a[1..], b);
    } else {
      assert a + b == b;
    }
  }

  lemma {:induction false} AfterDateRoundTrip(t: Stamp)
    requires ValidStamp(t) && (t.offset.Some? ==> t.offset.value % 60 == 0)
    ensures ParseAfterDate(t.local.date.year, t.local.date.month, t.local.date.day, ClockText(t.local) + OffsetText(t.offset)) == Some(t)
  {
    var clock, tz := ClockText(t.local), OffsetText(t.offset);
    var rest := clock + tz;
    assert forall k :: 0 <= k < |clock| ==> clock[k] == ':' || clock[k] == '.' || IsDigit(clock[k]);
    FirstSignAfter(clock, tz);
    assert rest[..|clock|] == clock && rest[|clock|..] == tz;
    ClockRoundTrip(t.local);
    OffsetRoundTrip(t.offset);
  }

  /** `fromisoformat` reads back what `isoformat` writes */
  lemma {:induction false} IsoRoundTrip(t: Stamp)
    requires ValidStamp(t) && (t.offset.Some? ==> t.offset.value % 60 == 0)
    ensures ParseIso(IsoFormat(t)) == Some(t)
  {
    var rest := ClockText(t.local) + OffsetText(t.offset);
    assert IsoFormat(t) == IsoDate(t.local.date) + "T" + rest;
    IsoDatePrefix(t.local.date, rest);
    AfterDateRoundTrip(t);
  }
}
