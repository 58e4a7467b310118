/** `generate_unified_summary_report.py`: the coverage a set of per-period reports spans,
  * read from their file names; the `HH:MM:SS` rendering of the statistics; the names of
  * the reports and histograms written; the statistic the histogram marks and its axis.
  * The CSV contents, the statistics themselves and the plotting belong to pandas, numpy
  * and matplotlib and are not part of this model. */
module SummaryReport {
  import opened Base
  import opened Calendar

  // ------------------------------------------------------------- durations

  /** `int(x)` on a float: truncation toward zero */
  function Truncate(x: real): (n: int)
    ensures 0.0 <= x ==> 0 <= n && n as real <= x < n as real + 1.0
    ensures x < 0.0 ==> n <= 0 && n as real - 1.0 < x <= n as real
  {
    if x >= 0.0 then x.Floor else -((-x).Floor)
  }

  /** what the script reads of a `pd.Timedelta` of whole seconds: the days folded into
    * the hours, then the minutes and seconds; pandas rounds the days down, so before
    * zero the hours are negative and the minutes and seconds are not */
  datatype Clock = Clock(hours: int, minutes: nat, seconds: nat)

  /** `24 * td.components.days + td.components.hours`, `td.components.minutes`,
    * `td.components.seconds` */
  function Components(n: int): (c: Clock)
    ensures c.hours * 3600 + c.minutes * 60 + c.seconds == n
    ensures c.minutes < 60 && c.seconds < 60
    ensures 0 <= n <==> 0 <= c.hours
  {
    var days := n / 86400;
    var rest := n % 86400;
    Clock(24 * days + rest / 3600, rest % 3600 / 60, rest % 60)
  }

  /** `f"{h:02d}"`: at least two characters, a minus sign counting toward the width */
  function HoursField(h: int): string
  {
    if h < 0 then "-" + NatStr(-h) else PadNat(h, 2)
  }

  /** `f"{hh:02d}:{minutes:02d}:{seconds:02d}"` */
  function ClockText(c: Clock): string
  {
    HoursField(c.hours) + ":" + PadNat(c.minutes, 2) + ":" + PadNat(c.seconds, 2)
  }

  /** `to_duration_isoformat(x)` */
  function DurationText(x: real): string
  {
    ClockText(Components(Truncate(x)))
  }

  /** reads `H:MM:SS` back into seconds: hours of any width with an optional minus sign,
    * minutes and seconds of two digits each and below 60 */
  function ParseDuration(t: string): Option<int>
  {
    ParseClockFields(Split(t, ':'))
  }

  function ParseClockFields(f: seq<string>): Option<int>
  {
    if |f| != 3 || |f[1]| != 2 || |f[2]| != 2 || !AllDigits(f[1]) || !AllDigits(f[2]) then None
    else
      var m, s := NatOf(f[1]), NatOf(f[2]);
      if m >= 60 || s >= 60 then None
      else
        match ParseHours(f[0])
        case None => None
        case Some(h) => Some(h * 3600 + m * 60 + s)
  }

  /** digits, or a minus sign and digits */
  function ParseHours(t: string): Option<int>
  {
    if t != [] && AllDigits(t) then Some(NatOf(t))
    else if |t| >= 2 && t[0] == '-' && AllDigits(t[1..]) then
      var h: int := NatOf(t[1..]);
      Some(-h)
    else None
  }

  /** below 100, `%02d` is exactly two digits */
  lemma {:induction false} TwoDigits(n: nat)
    requires n < 100
    ensures PadNat(n, 2) == Digits(n, 2)
  {
    assert Digits(n / 10, 1) == [DigitChar(n / 10)];
    if n >= 10 {
      assert NatStr(n / 10) == [DigitChar(n / 10)];
    } else {
      assert DigitChar(0) == '0';
    }
  }

  /** the hours field reads back as the hours */
  lemma {:induction false} HoursFieldValue(h: int)
    ensures ':' !in HoursField(h)
    ensures ParseHours(HoursField(h)) == Some(h)
  {
    var t := HoursField(h);
    if h < 0 {
      NatStrRoundTrip(-h);
      assert t[1..] == NatStr(-h);
      assert !IsDigit(t[0]);
      NoCharInDigits(t[1..], ':');
      assert t == [t[0]] + t[1..];
    } else {
      HoursWidth(h);
      NoCharInDigits(t, ':');
    }
  }

  /** for hours from zero on, `%02d` writes at least two digits, with no leading zero
    * past the width */
  lemma {:induction false} HoursWidth(h: nat)
    ensures |HoursField(h)| >= 2 && AllDigits(HoursField(h)) && NatOf(HoursField(h)) == h
    ensures h >= 10 ==> HoursField(h) == NatStr(h) && HoursField(h)[0] != '0'
  {
    if h < 10 {
      TwoDigits(h);
      assert Pow10(2) == 100;
      DigitsRoundTrip(h, 2);
    } else {
      NatStrRoundTrip(h);
    }
  }

  /** a two-digit field below 60 reads back as itself */
  lemma {:induction false} SixtyField(n: nat)
    requires n < 60
    ensures |PadNat(n, 2)| == 2 && AllDigits(PadNat(n, 2)) && NatOf(PadNat(n, 2)) == n
  {
    TwoDigits(n);
    assert Pow10(2) == 100;
    DigitsRoundTrip(n, 2);
  }

  /** three colon-free fields split apart again */
  lemma {:induction false} SplitThree(h: string, m: string, s: string)
    requires ':' !in h && ':' !in m && ':' !in s
    ensures Split(h + ":" + m + ":" + s, ':') == [h, m, s]
  {
    assert h + ":" + m + ":" + s == h + [':'] + (m + [':'] + s);
    SplitCons(h, m + [':'] + s, ':');
    SplitPair(m, s, ':');
  }

  /** a clock with minutes and seconds below 60 reads back as its seconds */
  lemma {:induction false} ClockRoundTrip(c: Clock)
    requires c.minutes < 60 && c.seconds < 60
    ensures ParseDuration(ClockText(c)) == Some(c.hours * 3600 + c.minutes * 60 + c.seconds)
  {
    var h, m, s := HoursField(c.hours), PadNat(c.minutes, 2), PadNat(c.seconds, 2);
    HoursFieldValue(c.hours);
    SixtyField(c.minutes);
    SixtyField(c.seconds);
    NoCharInDigits(m, ':');
    NoCharInDigits(s, ':');
    SplitThree(h, m, s);
    assert ParseDuration(ClockText(c)) == ParseClockFields([h, m, s]);
    FieldsValue(h, m, s, c.hours, c.minutes, c.seconds);
  }

  /** fields that read as given numbers */
  lemma {:induction false} FieldsValue(h: string, m: string, s: string, hv: int, mv: nat, sv: nat)
    requires |m| == 2 && AllDigits(m) && NatOf(m) == mv < 60
    requires |s| == 2 && AllDigits(s) && NatOf(s) == sv < 60
    requires ParseHours(h) == Some(hv)
    ensures ParseClockFields([h, m, s]) == Some(hv * 3600 + mv * 60 + sv)
  {
  }

  /** the text always has the `H:MM:SS` shape and reads back as the seconds truncated
    * toward zero: the whole days are inside the hours, and nothing else is lost */
  lemma {:induction false} DurationRoundTrip(x: real)
    ensures ParseDuration(DurationText(x)) == Some(Truncate(x))
  {
    var n := Truncate(x);
    var c := Components(n);
    assert DurationText(x) == ClockText(c);
    ClockRoundTrip(c);
    assert c.hours * 3600 + c.minutes * 60 + c.seconds == n;
  }

  // ------------------------------------------------------------- file names

  /** what `os.path.join` puts in front of a relative name */
  function DirPrefix(dir: string): (p: string)
    ensures p == [] || p[|p| - 1] == '/'
    ensures forall c :: c in p ==> c in dir || c == '/'
  {
    if dir == [] || dir[|dir| - 1] == '/' then dir else dir + "/"
  }

  /** `os.path.join(dir, name)` */
  function PathJoin(dir: string, name: string): (r: string)
    ensures EndsWith(r, name)
    ensures forall c :: c in r ==> c in dir || c == '/' || c in name
  {
    if name != [] && name[0] == '/' then name else DirPrefix(dir) + name
  }

  /** `get_retrieval_time_histogram_filename` */
  function RetrievalHistogramName(start: string, end: string, sds: string, input: string, reportType: string, outdir: string): string
  {
    PathJoin(outdir, "retrieval-time-" + reportType + " - " + sds + " - " + input + " - " + StampsTail(start, end))
  }

  /** `get_production_time_histogram_filename` */
  function ProductionHistogramName(start: string, end: string, sds: string, reportType: string, outdir: string): string
  {
    PathJoin(outdir, "production-time-" + reportType + " - " + sds + " - " + StampsTail(start, end))
  }

  /** the tail both histogram names end with */
  function StampsTail(start: string, end: string): string
  {
    RemoveChar(start, ':') + " to " + RemoveChar(end, ':') + ".png"
  }

  /** both histogram names end with the two date-times, every ':' removed, and a
    * `.png`; no ':' is left unless the directory or a product name brings one */
  lemma {:induction false} RetrievalHistogramShape(start: string, end: string, sds: string, input: string, reportType: string, outdir: string)
    ensures EndsWith(RetrievalHistogramName(start, end, sds, input, reportType, outdir), StampsTail(start, end))
    ensures ':' !in outdir && ':' !in sds && ':' !in input && ':' !in reportType ==>
      ':' !in RetrievalHistogramName(start, end, sds, input, reportType, outdir)
  {
    var tail := StampsTail(start, end);
    var head := "retrieval-time-" + reportType + " - " + sds + " - " + input + " - ";
    assert RetrievalHistogramName(start, end, sds, input, reportType, outdir) == PathJoin(outdir, head + tail);
    EndsWithTail(PathJoin(outdir, head + tail), head, tail);
    if ':' !in outdir && ':' !in sds && ':' !in reportType && ':' !in input {
      assert ':' !in head by { NameLiterals(); }
      JoinNoColon(outdir, head, start, end);
    }
  }

  lemma {:induction false} ProductionHistogramShape(start: string, end: string, sds: string, reportType: string, outdir: string)
    ensures EndsWith(ProductionHistogramName(start, end, sds, reportType, outdir), StampsTail(start, end))
    ensures ':' !in outdir && ':' !in sds && ':' !in reportType ==>
      ':' !in ProductionHistogramName(start, end, sds, reportType, outdir)
  {
    var tail := StampsTail(start, end);
    var head := "production-time-" + reportType + " - " + sds + " - ";
    assert ProductionHistogramName(start, end, sds, reportType, outdir) == PathJoin(outdir, head + tail);
    EndsWithTail(PathJoin(outdir, head + tail), head, tail);
    if ':' !in outdir && ':' !in sds && ':' !in reportType {
      assert ':' !in head by { NameLiterals(); }
      JoinNoColon(outdir, head, start, end);
    }
  }

  lemma {:induction false} NameLiterals()
    ensures ':' !in "retrieval-time-" && ':' !in "production-time-" && ':' !in " - "
  { }

  /** a name joined from colon-free parts and the stamps tail has no ':' */
  lemma {:induction false} JoinNoColon(outdir: string, head: string, start: string, end: string)
    requires ':' !in outdir && ':' !in head
    ensures ':' !in PathJoin(outdir, head + StampsTail(start, end))
  {
    assert ':' !in " to " && ':' !in ".png";
  }

  /** `strftime('%Y-%m-%dT%H%M%S')`, the stamp in the reports' file names */
  function FileStamp(t: DateTime): string
    requires ValidDateTime(t)
  {
    IsoDate(t.date) + "T" + Digits(t.hour, 2) + Digits(t.minute, 2) + Digits(t.second, 2)
  }

  /** the stamp with and without colons, regrouped around them */
  lemma {:induction false} ClockPieces(d: string, h: string, m: string, s: string)
    ensures d + "T" + h + ":" + m + ":" + s + "Z" == (d + "T" + h) + [':'] + (m + [':'] + (s + "Z"))
    ensures d + "T" + h + m + s + "Z" == (d + "T" + h) + (m + (s + "Z"))
  {
  }

  /** removing a separator between two pieces */
  lemma {:induction false} RemoveBetween(p: string, q: string, a: char)
    ensures RemoveChar(p + [a] + q, a) == RemoveChar(p, a) + RemoveChar(q, a)
  {
    RemoveCharConcat(p + [a], q, a);
    RemoveCharConcat(p, [a], a);
  }

  /** removing the colons of `<d>T<h>:<m>:<s>Z` */
  lemma {:induction false} RemoveClockColons(d: string, h: string, m: string, s: string)
    requires ':' !in d && ':' !in h && ':' !in m && ':' !in s
    ensures RemoveChar(d + "T" + h + ":" + m + ":" + s + "Z", ':') == d + "T" + h + m + s + "Z"
  {
    var x1 := d + "T" + h;
    var sz := s + "Z";
    ClockPieces(d, h, m, s);
    assert ':' !in "T" && ':' !in "Z";
    RemoveAbsent(x1, ':');
    RemoveAbsent(m, ':');
    RemoveAbsent(sz, ':');
    RemoveBetween(m, sz, ':');
    RemoveBetween(x1, m + [':'] + sz, ':');
  }

  /** a histogram named from `strftime('%Y-%m-%dT%H:%M:%SZ')` carries the report's own
    * file stamp, followed by the `Z` */
  lemma {:induction false} HistogramStamp(t: DateTime)
    requires ValidDateTime(t)
    ensures RemoveChar(IsoStampZ(t), ':') == FileStamp(t) + "Z"
  {
    var h, m, s := Digits(t.hour, 2), Digits(t.minute, 2), Digits(t.second, 2);
    NoCharInDigits(h, ':');
    NoCharInDigits(m, ':');
    NoCharInDigits(s, ':');
    NoCharInDigits(Digits(t.date.year, 4), ':');
    NoCharInDigits(Digits(t.date.month, 2), ':');
    NoCharInDigits(Digits(t.date.day, 2), ':');
    RemoveClockColons(IsoDate(t.date), h, m, s);
  }

  /** `datetime.strptime(s, '%Y-%m-%dT%H%M%S')` on the fixed 17-character layout */
  function ParseFileStamp(s: string): (r: Option<DateTime>)
    ensures r.Some? ==> ValidDateTime(r.value) && r.value.micro == 0
  {
    if |s| != 17 || s[4] != '-' || s[7] != '-' || s[10] != 'T' then None
    else match (DigitsAt(s, 0, 4), DigitsAt(s, 5, 2), DigitsAt(s, 8, 2), DigitsAt(s, 11, 2), DigitsAt(s, 13, 2), DigitsAt(s, 15, 2))
      case (Some(y), Some(m), Some(d), Some(h), Some(mi), Some(sec)) => MakeDateTime(y, m, d, h, mi, sec, 0)
      case _ => None
  }

  /** a file stamp reads back as the date-time it was written from, to the second */
  lemma {:induction false} FileStampRoundTrip(t: DateTime)
    requires ValidDateTime(t) && t.micro == 0
    ensures ParseFileStamp(FileStamp(t)) == Some(t)
  {
    var s := FileStamp(t);
    assert Pow10(2) == 100 && Pow10(4) == 10000;
    FileStampFields(t);
    DigitsAtOf(s, 0, 4, t.date.year);
    DigitsAtOf(s, 5, 2, t.date.month);
    DigitsAtOf(s, 8, 2, t.date.day);
    DigitsAtOf(s, 11, 2, t.hour);
    DigitsAtOf(s, 13, 2, t.minute);
    DigitsAtOf(s, 15, 2, t.second);
  }

  /** where each field of a file stamp sits */
  lemma {:induction false} FileStampFields(t: DateTime)
    requires ValidDateTime(t)
    ensures var s := FileStamp(t);
      && |s| == 17 && s[4] == '-' && s[7] == '-' && s[10] == 'T'
      && s[0..4] == Digits(t.date.year, 4) && s[5..7] == Digits(t.date.month, 2) && s[8..10] == Digits(t.date.day, 2)
      && s[11..13] == Digits(t.hour, 2) && s[13..15] == Digits(t.minute, 2) && s[15..17] == Digits(t.second, 2)
  {
    var s := FileStamp(t);
    var d := IsoDate(t.date);
    assert s == d + ("T" + Digits(t.hour, 2) + Digits(t.minute, 2) + Digits(t.second, 2));
    assert s[0..10] == d;
  }

  /** the name of a summary or detailed report: `<kind>-<form> - <start> to <end>.csv`
    * under the output directory */
  function ReportName(outdir: string, kind: string, form: string, start: UtcTime, end: UtcTime): string
  {
    PathJoin(outdir, ReportStem(kind, form, FileStamp(start), FileStamp(end)) + ".csv")
  }

  /** `<kind>-<form> - <start> to <end>`, the name before its extension */
  function ReportStem(kind: string, form: string, s1: string, s2: string): string
  {
    kind + "-" + form + " - " + s1 + " to " + s2
  }

  // ------------------------------------------------------------ the coverage

  /** index of the last `c` in `s` (`str.rfind`) */
  function LastIndexOf(s: string, c: char): (r: Option<nat>)
    ensures r.Some? ==> r.value < |s| && s[r.value] == c && c !in s[r.value + 1..]
    ensures r.None? ==> c !in s
  {
    if s == [] then None
    else if s[|s| - 1] == c then Some(|s| - 1)
    else
      var r := LastIndexOf(s[..|s| - 1], c);
      assert r.Some? ==> s[r.value + 1..] == s[..|s| - 1][r.value + 1..] + [s[|s| - 1]];
      assert r.None? ==> s == s[..|s| - 1] + [s[|s| - 1]];
      r
  }

  /** `os.path.splitext(p)[0]`: the text before the last '.' of the last path component,
    * unless every character before that '.' in the component is a '.' too */
  function SplitExtRoot(p: string): (r: string)
  {
    var b := Basename(p);
    match LastIndexOf(b, '.')
    case None => p
    case Some(k) => if NotAllDots(b, k) then p[..|p| - |b| + k] else p
  }

  /** some character before `k` is not a '.' */
  predicate NotAllDots(b: string, k: nat)
  {
    exists i :: 0 <= i < k && i < |b| && b[i] != '.'
  }

  lemma {:induction false} SplitExtRootAt(p: string, b: string, k: nat)
    requires Basename(p) == b
    requires LastIndexOf(b, '.') == Some(k) && NotAllDots(b, k)
    ensures SplitExtRoot(p) == p[..|p| - |b| + k]
  {
  }

  /** `s[0::2]` */
  function EveryOther(s: seq<string>): (r: seq<string>)
    ensures |r| == (|s| + 1) / 2
    ensures forall i :: 0 <= i < |r| ==> r[i] == s[2 * i]
  {
    if s == [] then [] else if |s| == 1 then [s[0]] else [s[0]] + EveryOther(s[2..])
  }

  /** `osp.splitext(name)[0].split(' ')[2::2]` */
  function Picks(name: string): seq<string>
  {
    var fields := Split(SplitExtRoot(name), ' ');
    if |fields| >= 2 then EveryOther(fields[2..]) else []
  }

  /** what reading a report's file name can raise */
  datatype Raised =
    | Unpack(got: nat)      // `ValueError`: not exactly two values to unpack
    | BadStamp(text: string) // `ValueError` from `strptime`

  /** the start and end a report's file name states */
  function FileCoverage(name: string): (r: Result<(DateTime, DateTime), Raised>)
    ensures r.Ok? ==> ValidDateTime(r.value.0) && ValidDateTime(r.value.1)
    ensures r.Ok? <==> |Picks(name)| == 2 && ParseFileStamp(Picks(name)[0]).Some? && ParseFileStamp(Picks(name)[1]).Some?
  {
    var picks := Picks(name);
    if |picks| != 2 then Err(Unpack(|picks|))
    else match (ParseFileStamp(picks[0]), ParseFileStamp(picks[1]))
      case (None, _) => Err(BadStamp(picks[0]))
      case (_, None) => Err(BadStamp(picks[1]))
      case (Some(a), Some(b)) => Ok((a, b))
  }

  /** the separator-free tail after a directory prefix is the base name */
  lemma {:induction false} BasenameAfter(pre: string, w: string)
    requires pre == [] || pre[|pre| - 1] == '/'
    requires '/' !in w
    ensures Basename(pre + w) == w
  {
    var s := pre + w;
    var b := Basename(s);
    assert s[|s| - |b|..] == b;
    assert s[|s| - |w|..] == w;
  }

  /** the last '.' of `a + ext` is the first of `ext` when `ext` has no other */
  lemma {:induction false} LastDot(a: string, ext: string)
    requires ext != [] && ext[0] == '.' && '.' !in ext[1..]
    ensures LastIndexOf(a + ext, '.') == Some(|a|)
  {
    var s := a + ext;
    assert s[|a|] == '.';
    assert s[|a| + 1..] == ext[1..];
  }

  lemma {:induction false} KeepStem(pre: string, stem: string, ext: string)
    ensures (pre + (stem + ext))[..|pre| + |stem|] == pre + stem
  {
  }

  /** `splitext` drops an extension after a dot-free last component */
  lemma {:induction false} ExtRoot(pre: string, stem: string, ext: string)
    requires pre == [] || pre[|pre| - 1] == '/'
    requires '/' !in stem && '.' !in stem && stem != []
    requires ext != [] && ext[0] == '.' && '.' !in ext[1..] && '/' !in ext
    ensures SplitExtRoot(pre + (stem + ext)) == pre + stem
  {
    var b := stem + ext;
    BasenameAfter(pre, b);
    LastDot(stem, ext);
    assert NotAllDots(b, |stem|) by {
      assert b[0] == stem[0] != '.';
    }
    SplitExtRootAt(pre + b, b, |stem|);
    KeepStem(pre, stem, ext);
  }

  lemma {:induction false} SplitStep(a: string, t: string, rest: seq<string>, sep: char)
    requires sep !in a && Split(t, sep) == rest
    ensures Split(a + [sep] + t, sep) == [a] + rest
  {
    SplitCons(a, t, sep);
  }

  /** five separator-free fields split apart again */
  lemma {:induction false} FiveFields(a: string, b: string, c: string, d: string, e: string, sep: char)
    requires sep !in a && sep !in b && sep !in c && sep !in d && sep !in e
    ensures Split(a + [sep] + (b + [sep] + (c + [sep] + (d + [sep] + e))), sep) == [a, b, c, d, e]
  {
    var t3 := d + [sep] + e;
    var t2 := c + [sep] + t3;
    var t1 := b + [sep] + t2;
    assert Split(t3, sep) == [d, e] by { SplitPair(d, e, sep); }
    assert Split(t2, sep) == [c, d, e] by { SplitStep(c, t3, [d, e], sep); ConsFive(a, b, c, d, e); }
    assert Split(t1, sep) == [b, c, d, e] by { SplitStep(b, t2, [c, d, e], sep); ConsFive(a, b, c, d, e); }
    SplitStep(a, t1, [b, c, d, e], sep);
    ConsFive(a, b, c, d, e);
  }

  lemma {:induction false} ConsFive<T>(a: T, b: T, c: T, d: T, e: T)
    ensures [c] + [d, e] == [c, d, e]
    ensures [b] + [c, d, e] == [b, c, d, e]
    ensures [a] + [b, c, d, e] == [a, b, c, d, e]
  { }

  /** the fields of `<left> - <s1> to <s2>` */
  lemma {:induction false} NameFields(left: string, s1: string, s2: string)
    requires ' ' !in left && ' ' !in s1 && ' ' !in s2
    ensures Split(left + " - " + s1 + " to " + s2, ' ') == [left, "-", s1, "to", s2]
  {
    NamePieces(left, s1, s2);
    FiveFields(left, "-", s1, "to", s2, ' ');
  }

  lemma {:induction false} NamePieces(left: string, s1: string, s2: string)
    ensures left + " - " + s1 + " to " + s2 == left + [' '] + ("-" + [' '] + (s1 + [' '] + ("to" + [' '] + s2)))
  {
  }

  lemma {:induction false} Regroup(pre: string, head: string, s1: string, s2: string)
    ensures pre + (head + " - " + s1 + " to " + s2) == (pre + head) + " - " + s1 + " to " + s2
  {
  }

  lemma {:induction false} PicksOfFields(name: string, fields: seq<string>)
    requires Split(SplitExtRoot(name), ' ') == fields && |fields| == 5
    ensures Picks(name) == [fields[2], fields[4]]
  {
    assert fields[2..] == [fields[2], fields[3], fields[4]];
  }

  /** the two stamps of a report's name are its third and fifth fields */
  lemma {:induction false} NamePicks(outdir: string, kind: string, form: string, s1: string, s2: string)
    requires ' ' !in outdir && ' ' !in kind && ' ' !in form && ' ' !in s1 && ' ' !in s2
    requires '/' !in kind && '/' !in form && '/' !in s1 && '/' !in s2
    requires '.' !in kind && '.' !in form && '.' !in s1 && '.' !in s2
    requires kind != []
    ensures Picks(PathJoin(outdir, ReportStem(kind, form, s1, s2) + ".csv")) == [s1, s2]
  {
    var stem := ReportStem(kind, form, s1, s2);
    var pre := DirPrefix(outdir);
    var name := PathJoin(outdir, stem + ".csv");
    StemChars(kind, form, s1, s2);
    JoinedName(outdir, stem + ".csv");
    ExtRoot(pre, stem, ".csv");
    StemFields(pre, kind, form, s1, s2);
    PicksOfFields(name, [pre + (kind + "-" + form), "-", s1, "to", s2]);
  }

  lemma {:induction false} StemChars(kind: string, form: string, s1: string, s2: string)
    requires '/' !in kind && '/' !in form && '/' !in s1 && '/' !in s2
    requires '.' !in kind && '.' !in form && '.' !in s1 && '.' !in s2
    requires kind != []
    ensures ReportStem(kind, form, s1, s2) != [] && ReportStem(kind, form, s1, s2)[0] == kind[0]
    ensures '/' !in ReportStem(kind, form, s1, s2) && '.' !in ReportStem(kind, form, s1, s2)
  {
  }

  lemma {:induction false} JoinedName(dir: string, name: string)
    requires name != [] && name[0] != '/'
    ensures PathJoin(dir, name) == DirPrefix(dir) + name
  {
  }

  lemma {:induction false} StemFields(pre: string, kind: string, form: string, s1: string, s2: string)
    requires ' ' !in pre && ' ' !in kind && ' ' !in form && ' ' !in s1 && ' ' !in s2
    ensures Split(pre + ReportStem(kind, form, s1, s2), ' ') == [pre + (kind + "-" + form), "-", s1, "to", s2]
  {
    var head := kind + "-" + form;
    assert ReportStem(kind, form, s1, s2) == head + " - " + s1 + " to " + s2;
    assert ' ' !in pre + head;
    Regroup(pre, head, s1, s2);
    NameFields(pre + head, s1, s2);
  }

  /** the file names the script writes for its reports read back as their coverage */
  lemma {:induction false} ReportNameCoverage(outdir: string, kind: string, form: string, start: UtcTime, end: UtcTime)
    requires start.micro == 0 && end.micro == 0
    requires ' ' !in outdir && ' ' !in kind && ' ' !in form
    requires '/' !in kind && '/' !in form && '.' !in kind && '.' !in form
    requires kind != []
    ensures FileCoverage(ReportName(outdir, kind, form, start, end)) == Ok((start, end))
  {
    StampChars(start);
    StampChars(end);
    NamePicks(outdir, kind, form, FileStamp(start), FileStamp(end));
    FileStampRoundTrip(start);
    FileStampRoundTrip(end);
  }

  /** a file stamp holds digits, '-' and 'T' only */
  lemma {:induction false} StampChars(t: UtcTime)
    ensures ' ' !in FileStamp(t) && '/' !in FileStamp(t) && '.' !in FileStamp(t)
  {
    var parts := [Digits(t.date.year, 4), Digits(t.date.month, 2), Digits(t.date.day, 2),
      Digits(t.hour, 2), Digits(t.minute, 2), Digits(t.second, 2)];
    forall i | 0 <= i < |parts|
      ensures ' ' !in parts[i] && '/' !in parts[i] && '.' !in parts[i]
    {
      NoCharInDigits(parts[i], ' ');
      NoCharInDigits(parts[i], '/');
      NoCharInDigits(parts[i], '.');
    }
  }

  /** the initial coverage, later than and earlier than any report */
  const CoverageStart: DateTime := DateTime(Date(3000, 1, 1), 0, 0, 0, 0)
  const CoverageEnd: DateTime := DateTime(Date(2000, 1, 1), 0, 0, 0, 0)

  /** the order Python compares date-times in, field by field from the year down, as
    * one number: each field stays below the weight of the one above it */
  function Rank(t: DateTime): int
  {
    (((((t.date.year * 13 + t.date.month) * 32 + t.date.day) * 24 + t.hour) * 60 + t.minute) * 60 + t.second) * 1000000 + t.micro
  }

  /** `min(a, b)` on date-times */
  function Earlier(a: DateTime, b: DateTime): (r: DateTime)
    ensures Rank(r) <= Rank(a) && Rank(r) <= Rank(b)
    ensures r == a || r == b
  {
    if Rank(b) < Rank(a) then b else a
  }

  /** `max(a, b)` on date-times */
  function Later(a: DateTime, b: DateTime): (r: DateTime)
    ensures Rank(r) >= Rank(a) && Rank(r) >= Rank(b)
    ensures r == a || r == b
  {
    if Rank(b) > Rank(a) then b else a
  }

  /** how a file name is read: `FileCoverage` in the script */
  type NameReader = string -> Result<(DateTime, DateTime), Raised>

  /** the coverage of the files read so far, or the first file name that raised */
  function Coverage(read: NameReader, files: seq<string>): Result<(DateTime, DateTime), Raised>
  {
    if files == [] then Ok((CoverageStart, CoverageEnd))
    else
      match Coverage(read, files[..|files| - 1])
      case Err(e) => Err(e)
      case Ok(acc) =>
        match read(files[|files| - 1])
        case Err(e) => Err(e)
        case Ok(f) => Ok((Earlier(acc.0, f.0), Later(acc.1, f.1)))
  }

  /** `start` is the least of the sentinel and the files' starts, `end` the greatest of
    * the sentinel and the files' ends */
  predicate Spans(read: NameReader, files: seq<string>, start: DateTime, end: DateTime)
    requires forall i :: 0 <= i < |files| ==> read(files[i]).Ok?
  {
    && Rank(start) <= Rank(CoverageStart)
    && Rank(end) >= Rank(CoverageEnd)
    && (forall i :: 0 <= i < |files| ==> Rank(start) <= Rank(read(files[i]).value.0))
    && (forall i :: 0 <= i < |files| ==> Rank(end) >= Rank(read(files[i]).value.1))
    && (start == CoverageStart || exists i :: 0 <= i < |files| && start == read(files[i]).value.0)
    && (end == CoverageEnd || exists i :: 0 <= i < |files| && end == read(files[i]).value.1)
  }

  /** reading succeeds exactly when every name reads */
  lemma {:induction false} CoverageOk(read: NameReader, files: seq<string>)
    ensures Coverage(read, files).Ok? <==> forall i :: 0 <= i < |files| ==> read(files[i]).Ok?
  {
    if files != [] {
      var init := files[..|files| - 1];
      CoverageOk(read, init);
      if Coverage(read, files).Ok? {
        forall i | 0 <= i < |files| ensures read(files[i]).Ok? {
          if i < |init| {
            assert files[i] == init[i];
          }
        }
      } else if Coverage(read, init).Err? {
        var i :| 0 <= i < |init| && !read(init[i]).Ok?;
        assert files[i] == init[i];
      }
    }
  }

  /** the coverage runs from the earliest start to the latest end, the sentinels
    * included */
  lemma {:induction false} CoverageSpans(read: NameReader, files: seq<string>)
    requires Coverage(read, files).Ok?
    ensures forall i :: 0 <= i < |files| ==> read(files[i]).Ok?
    ensures Spans(read, files, Coverage(read, files).value.0, Coverage(read, files).value.1)
  {
    CoverageOk(read, files);
    if files != [] {
      var init := files[..|files| - 1];
      CoverageSpans(read, init);
      assert forall i :: 0 <= i < |init| ==> init[i] == files[i];
      var acc := Coverage(read, init).value;
      var f := read(files[|files| - 1]).value;
      var r := Coverage(read, files).value;
      assert r == (Earlier(acc.0, f.0), Later(acc.1, f.1));
      assert files[|files| - 1] == files[|files| - 1];
      forall i | 0 <= i < |files|
        ensures Rank(r.0) <= Rank(read(files[i]).value.0) && Rank(r.1) >= Rank(read(files[i]).value.1)
      {
        if i < |init| {
          assert files[i] == init[i];
        }
      }
      if r.0 != CoverageStart && r.0 != f.0 {
        assert r.0 == acc.0;
        var i :| 0 <= i < |init| && acc.0 == read(init[i]).value.0;
        assert r.0 == read(files[i]).value.0;
      }
      if r.1 != CoverageEnd && r.1 != f.1 {
        assert r.1 == acc.1;
        var i :| 0 <= i < |init| && acc.1 == read(init[i]).value.1;
        assert r.1 == read(files[i]).value.1;
      }
      assert Spans(read, files, r.0, r.1);
    }
  }

  /** with no files the sentinels are returned: a start after the end */
  lemma {:induction false} CoverageEmpty(read: NameReader)
    ensures Coverage(read, []) == Ok((CoverageStart, CoverageEnd))
    ensures Rank(CoverageStart) > Rank(CoverageEnd)
  {
  }

  lemma {:induction false} CoverageSticks(read: NameReader, files: seq<string>, i: nat)
    requires i <= |files| && Coverage(read, files[..i]).Err?
    ensures Coverage(read, files) == Coverage(read, files[..i])
    decreases |files| - i
  {
    if i < |files| {
      assert files[..i + 1][..i] == files[..i];
      CoverageSticks(read, files, i + 1);
    } else {
      assert files[..i] == files;
    }
  }

  /** `read_all_csv_files`, the start and end only: the frames pandas reads and
    * concatenates are not modelled */
  method ReadAllCsvFiles(files: seq<string>) returns (r: Result<(DateTime, DateTime), Raised>)
    ensures r == Coverage(FileCoverage, files)
  {
    var start, end := CoverageStart, CoverageEnd;
    for i := 0 to |files|
      invariant Coverage(FileCoverage, files[..i]) == Ok((start, end))
    {
      assert files[..i + 1][..i] == files[..i];
      var picks := Picks(files[i]);
      if |picks| != 2 {
        CoverageSticks(FileCoverage, files, i + 1);
        return Err(Unpack(|picks|));
      }
      var t1 := ParseFileStamp(picks[0]);
      if t1.None? {
        CoverageSticks(FileCoverage, files, i + 1);
        return Err(BadStamp(picks[0]));
      }
      var t2 := ParseFileStamp(picks[1]);
      if t2.None? {
        CoverageSticks(FileCoverage, files, i + 1);
        return Err(BadStamp(picks[1]));
      }
      start := Earlier(start, t1.value);
      end := Later(end, t2.value);
    }
    assert files[..|files|] == files;
    r := Ok((start, end));
  }

  // ------------------------------------------------------------- histograms

  /** `hours_plot_stat`: the 90th percentile for retrieval times, the mean for
    * production times, a `ValueError` for any other column */
  function PlotStat(column: string, p90: real, mean: real): (r: Result<real, string>)
    ensures r.Ok? <==> column == "Retrieval Time" || column == "Production Time"
    ensures column == "Retrieval Time" ==> r == Ok(p90)
    ensures column == "Production Time" ==> r == Ok(mean)
    ensures r.Err? ==> EndsWith(r.error, column)
  {
    if column == "Retrieval Time" then Ok(p90)
    else if column == "Production Time" then Ok(mean)
    else Err("Bad value for `column` input.  Value = " + column)
  }

  /** a tick label: `f"{x:.1f}"`, `f"{x:.2f}"` or fixed text */
  datatype Label = OneDecimal(x: real) | TwoDecimals(x: real) | Text(s: string)

  /** the x-axis ticks, in hours, from the minimum, the plotted statistic and the maximum */
  function Ticks(lo: real, stat: real, hi: real): (r: seq<(real, Label)>)
    ensures |r| == if hi > 24.0 then 4 else 3
    ensures r[0] == (lo, OneDecimal(lo))
    ensures r[1].1 == TwoDecimals(stat) && r[1].0 <= 30.0 && (r[1].0 == stat || (r[1].0 == 30.0 && stat >= 30.0))
    ensures r[2].0 <= 30.0 && (r[2].1 == Text("30+") <==> hi >= 30.0)
    ensures hi < 30.0 ==> r[2] == (hi, OneDecimal(hi))
    ensures hi > 24.0 ==> r[3] == (24.0, Text("24"))
  {
    [(lo, OneDecimal(lo))]
    + [(if stat < 30.0 then stat else 30.0, TwoDecimals(stat))]
    + [if hi < 30.0 then (hi, OneDecimal(hi)) else (30.0, Text("30+"))]
    + (if hi > 24.0 then [(24.0, Text("24"))] else [])
  }

  /** the dashed line: at the statistic, held at 30 hours, red past 24 hours */
  function Marker(stat: real): (r: (real, bool))
    ensures r.0 <= 30.0 && (stat <= 30.0 ==> r.0 == stat) && (stat > 30.0 ==> r.0 == 30.0)
    ensures r.1 <==> stat > 24.0
  {
    (if stat > 30.0 then 30.0 else stat, stat > 24.0)
  }
}
