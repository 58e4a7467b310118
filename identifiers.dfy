/** Recognizers for the fixed identifier shapes the scripts match with
  * regular expressions: a pattern is a sequence of items (fixed-width runs
  * of character classes, alternations, digit runs, lazy and greedy `.+`),
  * matched from a position the way Python's backtracking `re` engine does,
  * returning the named groups. Also the `HLS_SUFFIX` band-file
  * normalisation shared by the reconcilers. */
module Identifiers {
  import opened Base

  /** `match.groupdict()` */
  type Fields = map<string, string>

  /** one position of a fixed-width run */
  datatype Class =
    | Digit              // `\d` on ASCII digits
    | Alnum              // `[^\W_]` on ASCII letters and digits
    | Word               // `\w` on ASCII letters, digits and `_`
    | Any                // `.`: anything but a newline
    | OneOf(cs: string)  // a character set such as `[SL]` or a literal character

  predicate Fits(c: char, k: Class)
  {
    match k
    case Digit => IsDigit(c)
    case Alnum => IsAlnum(c)
    case Word => IsWord(c)
    case Any => c != '\n'
    case OneOf(cs) => c in cs
  }

  /** one piece of a pattern; a `name` of "" is not captured */
  datatype Item =
    | Fixed(name: string, classes: seq<Class>)  // a fixed-width run
    | Choice(name: string, alts: seq<string>)   // `a|b|c`, tried in order
    | Digits                                    // `\d+`, only ever followed by a non-digit
    | Lazy(name: string)                        // `.+?`
    | Greedy(name: string)                      // `.+`

  /** a literal string as a fixed run */
  function Lit(s: string): (r: Item)
    ensures r.Fixed? && r.name == "" && |r.classes| == |s|
  {
    Fixed("", seq(|s|, i requires 0 <= i < |s| => OneOf([s[i]])))
  }

  /** `k` copies of one class */
  function Times(k: nat, c: Class): (r: seq<Class>)
    ensures |r| == k && forall i :: 0 <= i < k ==> r[i] == c
  {
    seq(k, i => c)
  }

  predicate FitsAt(s: string, i: nat, classes: seq<Class>)
  {
    i + |classes| <= |s| && forall j :: 0 <= j < |classes| ==> Fits(s[i + j], classes[j])
  }

  /** the end of the run of digits starting at `i` */
  function DigitsEnd(s: string, i: nat): (e: nat)
    requires i <= |s|
    ensures i <= e <= |s| && (e < |s| ==> !IsDigit(s[e]))
    ensures forall j :: i <= j < e ==> IsDigit(s[j])
    decreases |s| - i
  {
    if i < |s| && IsDigit(s[i]) then DigitsEnd(s, i + 1) else i
  }

  function Capture(name: string, v: string, f: Fields): Fields
  {
    if name == "" then f else f[name := v]
  }

  /** `pattern.match(s[i:])`: the groups of the first match the backtracking engine finds */
  function Match(items: seq<Item>, s: string, i: nat): Option<Fields>
    requires i <= |s|
    decreases |items|, 1, 0
  {
    if items == [] then Some(map[])
    else
      var rest := items[1..];
      match items[0]
      case Fixed(name, classes) =>
        if FitsAt(s, i, classes) then
          (match Match(rest, s, i + |classes|)
           case None => None
           case Some(f) => Some(Capture(name, s[i..i + |classes|], f)))
        else None
      case Choice(name, alts) => TryAlts(rest, name, alts, s, i)
      case Digits =>
        var e := DigitsEnd(s, i);
        if e == i then None else Match(rest, s, e)
      case Lazy(name) => TryLazy(rest, name, s, i, i + 1)
      case Greedy(name) => TryGreedy(rest, name, s, i, |s|)
  }

  /** the alternatives in order, each followed by the rest of the pattern */
  function TryAlts(rest: seq<Item>, name: string, alts: seq<string>, s: string, i: nat): Option<Fields>
    requires i <= |s|
    decreases |rest| + 1, 0, |alts|
  {
    if alts == [] then None
    else
      var a := alts[0];
      var m := if i + |a| <= |s| && s[i..i + |a|] == a then Match(rest, s, i + |a|) else None;
      match m
      case Some(f) => Some(Capture(name, a, f))
      case None => TryAlts(rest, name, alts[1..], s, i)
  }

  predicate NoNewline(s: string, i: nat, e: nat)
    requires i <= e <= |s|
  {
    forall j :: i <= j < e ==> s[j] != '\n'
  }

  /** `.+?`: the shortest run (of at least one character, no newline) after which the rest matches */
  function TryLazy(rest: seq<Item>, name: string, s: string, i: nat, e: nat): Option<Fields>
    requires i < e
    requires e <= |s| + 1
    decreases |rest| + 1, 0, |s| + 1 - e
  {
    if e > |s| || s[e - 1] == '\n' then None
    else match Match(rest, s, e)
      case Some(f) => Some(Capture(name, s[i..e], f))
      case None => TryLazy(rest, name, s, i, e + 1)
  }

  /** `.+`: the longest run (of at least one character, no newline) after which the rest matches */
  function TryGreedy(rest: seq<Item>, name: string, s: string, i: nat, e: nat): Option<Fields>
    requires i <= |s| && e <= |s|
    decreases |rest| + 1, 0, e
  {
    if e <= i then None
    else if !NoNewline(s, i, e) then TryGreedy(rest, name, s, i, e - 1)
    else match Match(rest, s, e)
      case Some(f) => Some(Capture(name, s[i..e], f))
      case None => TryGreedy(rest, name, s, i, e - 1)
  }

  /** `pattern.search(s)`: the match at the first position where there is one */
  function Search(items: seq<Item>, s: string, i: nat): Option<Fields>
    requires i <= |s|
    decreases |s| - i
  {
    match Match(items, s, i)
    case Some(f) => Some(f)
    case None => if i < |s| then Search(items, s, i + 1) else None
  }

  /** the names a pattern captures */
  function Names(items: seq<Item>): set<string>
  {
    if items == [] then {}
    else
      var n := match items[0]
        case Fixed(name, _) => name
        case Choice(name, _) => name
        case Digits => ""
        case Lazy(name) => name
        case Greedy(name) => name;
      (if n == "" then {} else {n}) + Names(items[1..])
  }

  /** a named fixed run is one of the pattern's groups */
  lemma {:induction false} FixedNamed(items: seq<Item>, k: nat)
    requires k < |items| && items[k].Fixed? && items[k].name != ""
    ensures items[k].name in Names(items)
  {
    if k > 0 {
      FixedNamed(items[1..], k - 1);
    }
  }

  /** a successful match defines exactly the named groups: `groupdict()[g]`
    * never raises `KeyError` for a group the pattern names */
  lemma {:induction false} MatchNames(items: seq<Item>, s: string, i: nat)
    requires i <= |s| && Match(items, s, i).Some?
    ensures Match(items, s, i).value.Keys == Names(items)
    decreases |items|, 1, 0
  {
    if items != [] {
      var rest := items[1..];
      match items[0]
      case Fixed(name, classes) =>
        MatchNames(rest, s, i + |classes|);
      case Choice(name, alts) =>
        AltsNames(rest, name, alts, s, i);
      case Digits =>
        MatchNames(rest, s, DigitsEnd(s, i));
      case Lazy(name) =>
        LazyNames(rest, name, s, i, i + 1);
      case Greedy(name) =>
        GreedyNames(rest, name, s, i, |s|);
    }
  }

  lemma {:induction false} AltsNames(rest: seq<Item>, name: string, alts: seq<string>, s: string, i: nat)
    requires i <= |s| && TryAlts(rest, name, alts, s, i).Some?
    ensures TryAlts(rest, name, alts, s, i).value.Keys == Names(rest) + (if name == "" then {} else {name})
    decreases |rest| + 1, 0, |alts|
  {
    var a := alts[0];
    if i + |a| <= |s| && s[i..i + |a|] == a && Match(rest, s, i + |a|).Some? {
      MatchNames(rest, s, i + |a|);
    } else {
      AltsNames(rest, name, alts[1..], s, i);
    }
  }

  lemma {:induction false} LazyNames(rest: seq<Item>, name: string, s: string, i: nat, e: nat)
    requires i < e <= |s| + 1 && TryLazy(rest, name, s, i, e).Some?
    ensures TryLazy(rest, name, s, i, e).value.Keys == Names(rest) + (if name == "" then {} else {name})
    decreases |rest| + 1, 0, |s| + 1 - e
  {
    if Match(rest, s, e).Some? {
      MatchNames(rest, s, e);
    } else {
      LazyNames(rest, name, s, i, e + 1);
    }
  }

  lemma {:induction false} GreedyNames(rest: seq<Item>, name: string, s: string, i: nat, e: nat)
    requires i <= |s| && e <= |s| && TryGreedy(rest, name, s, i, e).Some?
    ensures TryGreedy(rest, name, s, i, e).value.Keys == Names(rest) + (if name == "" then {} else {name})
    decreases |rest| + 1, 0, e
  {
    if !NoNewline(s, i, e) || Match(rest, s, e).None? {
      GreedyNames(rest, name, s, i, e - 1);
    } else {
      MatchNames(rest, s, e);
    }
  }

  // ------------------------------------------------- the shapes themselves

  /** `\d{8}T\d{6}Z` */
  function StampClasses(): seq<Class> { Times(8, Digit) + [OneOf("T")] + Times(6, Digit) + [OneOf("Z")] }

  /** `T[^\W_]{5}`, an MGRS tile */
  function TileClasses(): seq<Class> { [OneOf("T")] + Times(5, Alnum) }

  /** `\w{4}-\w{6}-\w{3}`, a burst identifier */
  function BurstClasses(): seq<Class> { Times(4, Word) + [OneOf("-")] + Times(6, Word) + [OneOf("-")] + Times(3, Word) }

  /** `v\d+[.]\d+` */
  function Version(): seq<Item> { [Lit("v"), Digits, Lit("."), Digits] }

  function Sensors(): seq<string> { ["S2A", "S2B", "S2C", "S2D", "L8", "L9"] }

  function Pols(): seq<string> { ["VV", "VH", "HH", "HV", "VV+VH", "HH+HV"] }

  /** `S1[A-D]` */
  function S1Classes(): seq<Class> { [OneOf("S"), OneOf("1"), OneOf("ABCD")] }

  /** `OPERA_L3_DSWx-HLS_...` (the DSWx-HLS product pattern) */
  function DswxHlsPattern(): seq<Item>
  {
    [Lit("OPERA_L3_DSWx-HLS_"), Fixed("tile_id", TileClasses()), Lit("_"),
     Fixed("acquisition_ts", StampClasses()), Lit("_"), Fixed("creation_ts", StampClasses()), Lit("_"),
     Choice("sensor", Sensors()), Lit("_30_")] + Version()
  }

  /** `HLS[.][SL]30[.]T[^\W_]{5}[.]\d{7}T\d{6}[.]v\d+[.]\d+`, with its groups */
  function HlsPattern(): seq<Item>
  {
    [Fixed("product_shortname", [OneOf("H"), OneOf("L"), OneOf("S"), OneOf("."), OneOf("SL"), OneOf("3"), OneOf("0")]),
     Lit("."), Fixed("tile_id", TileClasses()), Lit("."),
     Fixed("acquisition_ts", Times(7, Digit) + [OneOf("T")] + Times(6, Digit)), Lit(".")] + Version()
  }

  /** `HLS_PATTERN.match(s) is not None` */
  predicate IsHls(s: string) { Match(HlsPattern(), s, 0).Some? }

  // ---------------------------------------------------- band-file suffixes

  /** `.Fmask.tif` ends at `e` */
  predicate FmaskAt(s: string, e: nat) { 10 <= e <= |s| && s[e - 10..e] == ".Fmask.tif" }

  /** `.B` two ASCII letters or digits `.tif` ends at `e` */
  predicate BandAt(s: string, e: nat)
  {
    8 <= e <= |s| && s[e - 8] == '.' && s[e - 7] == 'B' && IsAlnum(s[e - 6]) && IsAlnum(s[e - 5])
    && s[e - 4..e] == ".tif"
  }

  /** where `$` matches: before a final newline, else at the end */
  function AnchorEnd(s: string): (e: nat)
    ensures e <= |s| && (e < |s| ==> e == |s| - 1 && s[e] == '\n')
  {
    if s != [] && s[|s| - 1] == '\n' then |s| - 1 else |s|
  }

  /** `re.sub(r'[.](B[A-Za-z0-9]{2}|Fmask)[.]tif$', '', s)`: a match must end
    * where `$` matches, so there is at most one */
  function StripBandSuffix(s: string): (r: string)
  {
    var e := AnchorEnd(s);
    if FmaskAt(s, e) then s[..e - 10] + s[e..]
    else if BandAt(s, e) then s[..e - 8] + s[e..]
    else s
  }

  /** an input file name reduced to the name of its HLS granule */
  function Normalize(input: string): string { StripBandSuffix(Basename(input)) }

  lemma {:induction false} StripBand(name: string, a: char, b: char)
    requires IsAlnum(a) && IsAlnum(b)
    ensures StripBandSuffix(name + ['.', 'B', a, b] + ".tif") == name
  {
    var band := name + ['.', 'B', a, b] + ".tif";
    var e := |band|;
    assert band[e - 8] == '.' && band[e - 7] == 'B' && band[e - 6] == a && band[e - 5] == b && band[e - 1] == 'f';
    assert AnchorEnd(band) == e;
    assert !FmaskAt(band, e) by {
      if e >= 10 { assert band[e - 10..e][3] == band[e - 7]; }
    }
    assert band[e - 4..] == ".tif";
    assert BandAt(band, e);
    assert band[..e - 8] == name;
  }

  lemma {:induction false} StripMask(name: string)
    ensures StripBandSuffix(name + ".Fmask.tif") == name
  {
    var mask := name + ".Fmask.tif";
    assert mask[|mask| - 1] == 'f';
    assert AnchorEnd(mask) == |mask|;
    assert mask[|mask| - 10..] == ".Fmask.tif";
    assert mask[..|mask| - 10] == name;
  }

  lemma {:induction false} BasenameUnder(dir: string, name: string)
    requires dir == [] || dir[|dir| - 1] == '/'
    requires '/' !in name
    ensures Basename(dir + name) == name
    decreases |name|
  {
    if name == [] {
      assert dir + name == dir;
    } else {
      var init, last := name[..|name| - 1], name[|name| - 1];
      assert (dir + name)[..|dir + name| - 1] == dir + init;
      assert (dir + name)[|dir + name| - 1] == last != '/';
      assert Basename(dir + init) == init by {
        assert forall c :: c in init ==> c in name;
        BasenameUnder(dir, init);
      }
      assert name == init + [last];
    }
  }

  /** the band files and the mask of one granule, under any directory, all
    * normalise to the granule's name */
  lemma {:induction false} BandFilesCollapse(dir: string, name: string, a: char, b: char)
    requires dir == [] || dir[|dir| - 1] == '/'
    requires '/' !in name
    requires IsAlnum(a) && IsAlnum(b)
    ensures Normalize(dir + name + ['.', 'B', a, b] + ".tif") == name
    ensures Normalize(dir + name + ".Fmask.tif") == name
  {
    assert dir + name + ['.', 'B', a, b] + ".tif" == dir + (name + ['.', 'B', a, b] + ".tif");
    assert dir + name + ".Fmask.tif" == dir + (name + ".Fmask.tif");
    BasenameUnder(dir, name + ['.', 'B', a, b] + ".tif");
    BasenameUnder(dir, name + ".Fmask.tif");
    StripBand(name, a, b);
    StripMask(name);
  }
}
