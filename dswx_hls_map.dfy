/** `dswx-hls-input-map.py`: every DSWx-HLS output lists the HLS files it
  * was made from; the script maps each (HLS granule, date) pair to the
  * outputs naming it, adds the HLS granules no output names with an empty
  * list (Landsat-9 granules dropped), counts the mappings per date, per
  * month and overall, and lists the HLS granules without an output and the
  * outputs superseded by a newer one of the same HLS granule. */
module DswxHlsMap {
  import opened Base
  import opened Calendar
  import opened Identifiers
  import DuplicateCheck

  /** a calendar date, as `strptime` produces them */
  type Day = d: Date | ValidDate(d) witness Date(2000, 1, 1)

  // ---------------------------------------------------------- facet dates

  /** `_format_facet_date`: `YYYY-MM-DD / YYYY-DDD` */
  function FacetDate(d: Day): string
  {
    IsoDate(d) + " / " + Calendar.Digits(d.year, 4) + "-" + Calendar.Digits(DayOfYear(d), 3)
  }

  /** `date.split('/')[0].strip()`: the calendar-day part of a facet date */
  function DayText(facet: string): string { Strip(Split(facet, '/')[0]) }

  /** `strptime(text, '%Y-%m-%d').strftime('%Y-%m')`, on the `YYYY-MM-DD` layout
    * that `DayText` gives back for facet dates */
  function MonthText(text: string): Option<string>
  {
    if |text| == 10 && AllDigits(text[..4]) && text[4] == '-' && AllDigits(text[5..7]) && text[7] == '-'
       && AllDigits(text[8..]) && ValidDate(Date(NatOf(text[..4]), NatOf(text[5..7]), NatOf(text[8..])))
    then Some(text[..7])
    else None
  }

  lemma {:induction false} StripPadded(s: string)
    requires s != [] && !IsSpace(s[0]) && !IsSpace(s[|s| - 1])
    ensures Strip(s + " ") == s
  {
    var t := s + " ";
    assert StripLeftBy(t, IsSpace) == t;
    assert t[..|t| - 1] == s;
    assert StripRightBy(s, IsSpace) == s;
  }

  lemma {:induction false} IsoDateParts(d: Day)
    ensures var t := IsoDate(d);
      && |t| == 10 && t[..4] == Calendar.Digits(d.year, 4) && t[4] == '-' && t[5..7] == Calendar.Digits(d.month, 2)
      && t[7] == '-' && t[8..] == Calendar.Digits(d.day, 2) && '/' !in t
  {
    var t := IsoDate(d);
    assert t[..4] == Calendar.Digits(d.year, 4);
    assert t[5..7] == Calendar.Digits(d.month, 2);
    assert t[8..] == Calendar.Digits(d.day, 2);
    forall k | 0 <= k < 10 ensures t[k] != '/' {
      if k < 4 { assert t[k] == Calendar.Digits(d.year, 4)[k]; }
      else if 5 <= k < 7 { assert t[k] == Calendar.Digits(d.month, 2)[k - 5]; }
      else if 8 <= k { assert t[k] == Calendar.Digits(d.day, 2)[k - 8]; }
    }
  }

  /** the day part of a facet date is the ISO date it was made from */
  lemma {:induction false} FacetDay(d: Day)
    ensures DayText(FacetDate(d)) == IsoDate(d)
  {
    var t := IsoDate(d);
    var y, n := Calendar.Digits(d.year, 4), Calendar.Digits(DayOfYear(d), 3);
    var rest := " " + y + "-" + n;
    assert FacetDate(d) == (t + " ") + "/" + rest;
    assert '/' !in t + " " && t != [] && !IsSpace(t[0]) && !IsSpace(t[|t| - 1]) by {
      IsoDateParts(d);
    }
    assert '/' !in rest by {
      NoCharInDigits(y, '/');
      NoCharInDigits(n, '/');
    }
    SplitPair(t + " ", rest, '/');
    StripPadded(t);
  }

  lemma {:induction false} DigitsInjective(a: nat, b: nat, w: nat)
    requires a < Pow10(w) && b < Pow10(w) && Calendar.Digits(a, w) == Calendar.Digits(b, w)
    ensures a == b
  {
    DigitsRoundTrip(a, w);
    DigitsRoundTrip(b, w);
  }

  /** an ISO date renders back to the date it parses from */
  lemma {:induction false} IsoDateMonth(d: Day)
    ensures MonthText(IsoDate(d)) == Some(YearMonth(d))
  {
    var t := IsoDate(d);
    IsoDateParts(d);
    assert Pow10(2) == 100 && Pow10(4) == 10000;
    DigitsRoundTrip(d.year, 4);
    DigitsRoundTrip(d.month, 2);
    DigitsRoundTrip(d.day, 2);
    assert Date(NatOf(t[..4]), NatOf(t[5..7]), NatOf(t[8..])) == d;
    assert t[..7] == t[..4] + "-" + t[5..7];
  }

  /** the month the script files a facet date under is the date's `YYYY-MM` */
  lemma {:induction false} FacetMonth(d: Day)
    ensures MonthText(DayText(FacetDate(d))) == Some(YearMonth(d))
  {
    FacetDay(d);
    IsoDateMonth(d);
  }

  /** distinct dates have distinct facets, so a key `(hls, facet)` and a key `(hls, date)` name the same entries */
  lemma {:induction false} FacetInjective(d: Day, e: Day)
    requires FacetDate(d) == FacetDate(e)
    ensures d == e
  {
    IsoDateParts(d);
    IsoDateParts(e);
    assert IsoDate(d) == FacetDate(d)[..10] == FacetDate(e)[..10] == IsoDate(e);
    assert Pow10(2) == 100 && Pow10(4) == 10000;
    DigitsInjective(d.year, e.year, 4);
    DigitsInjective(d.month, e.month, 2);
    DigitsInjective(d.day, e.day, 2);
  }

  // ------------------------------------------------------------ retrying

  /** what the query can raise: a `RequestException` with or without a response, or anything else */
  datatype Raised = RequestError(status: Option<int>) | OtherError

  /** `_fatal_code`: give up only on a request error whose response has a status outside the retried ones */
  predicate FatalCode(e: Raised)
  {
    e.RequestError? && e.status.Some? && e.status.value !in [401, 418, 429, 500, 502, 503, 504]
  }

  /** an error without a response is always retried, and with a response the
    * decision is the duplicate checker's */
  lemma {:induction false} FatalCodeAgrees(e: Raised)
    ensures e.RequestError? && e.status.Some? ==> (FatalCode(e) <==> DuplicateCheck.Fatal(e.status.value))
    ensures e == OtherError || e == RequestError(None) ==> !FatalCode(e)
  {
  }

  // -------------------------------------------------------------- records

  /** a DSWx-HLS granule: `GranuleUR`, the date of `BeginningDateTime`, `InputGranules` */
  datatype Output = Output(id: string, day: Day, inputs: seq<string>)

  /** an HLS granule: `GranuleUR`, the date of `BeginningDateTime`, the platform `ShortName`s */
  datatype HlsGranule = HlsGranule(id: string, day: Day, platforms: seq<string>)

  /** a key of `hls_to_dswx`: the HLS identifier and the date whose facet the script uses */
  datatype Key = Key(hls: string, day: Day)

  datatype Failure =
    | NoInputs(granule: string)  // an output names no HLS file (ValueError)
    | NotDswx(granule: string)   // an output identifier the DSWx pattern does not match (AttributeError)

  /** `hls_to_dswx`: a dict of lists, its keys in insertion order */
  datatype Refs = Refs(keys: seq<Key>, lists: map<Key, seq<string>>)

  ghost predicate Valid(r: Refs)
  {
    Distinct(r.keys) && forall k :: k in r.lists <==> k in r.keys
  }

  // --------------------------------------------------- the output loop

  /** what an input file names: the HLS identifier, if any. The loops take it as a
    * parameter; `HlsOf` is the script's own */
  type Namer = string -> Option<string>

  /** the basename, band suffix removed, if the HLS pattern matches it */
  function HlsOf(input: string): (r: Option<string>)
    ensures r.Some? <==> IsHls(Normalize(input))
    ensures r.Some? ==> r.value == Normalize(input)
  {
    var stripped := Normalize(input);
    if IsHls(stripped) then Some(stripped) else None
  }

  /** the HLS keys one output names: `(basename without band suffix, date)` of each
    * input whose stripped name the HLS pattern matches */
  ghost function Named(hlsOf: Namer, o: Output): set<Key>
  {
    set i | i in o.inputs && hlsOf(i).Some? :: Key(hlsOf(i).value, o.day)
  }

  /** `filtered_inputs` as a list: the set, enumerated in first-occurrence order */
  function Collect(hlsOf: Namer, day: Day, inputs: seq<string>): seq<Key>
  {
    if inputs == [] then []
    else
      var acc := Collect(hlsOf, day, inputs[..|inputs| - 1]);
      var name := hlsOf(inputs[|inputs| - 1]);
      if name.Some? && Key(name.value, day) !in acc then acc + [Key(name.value, day)] else acc
  }

  /** `hls_to_dswx.setdefault(k, []).append(gid)` */
  function Append(r: Refs, k: Key, gid: string): Refs
  {
    if k in r.lists then Refs(r.keys, r.lists[k := r.lists[k] + [gid]])
    else Refs(r.keys + [k], r.lists[k := [gid]])
  }

  function AppendAll(r: Refs, ks: seq<Key>, gid: string): Refs
  {
    if ks == [] then r else Append(AppendAll(r, ks[..|ks| - 1], gid), ks[|ks| - 1], gid)
  }

  /** the loop over the outputs: raises on the first output naming no HLS file */
  function MapAll(hlsOf: Namer, outs: seq<Output>): Result<Refs, Failure>
  {
    if outs == [] then Ok(Refs([], map[]))
    else match MapAll(hlsOf, outs[..|outs| - 1])
      case Err(e) => Err(e)
      case Ok(r) =>
        var o := outs[|outs| - 1];
        var ks := Collect(hlsOf, o.day, o.inputs);
        if ks == [] then Err(NoInputs(o.id)) else Ok(AppendAll(r, ks, o.id))
  }

  lemma {:induction false} MapAllSticks(hlsOf: Namer, outs: seq<Output>, i: nat)
    requires i <= |outs| && MapAll(hlsOf, outs[..i]).Err?
    ensures MapAll(hlsOf, outs) == MapAll(hlsOf, outs[..i])
    decreases |outs| - i
  {
    if i < |outs| {
      assert outs[..i + 1][..i] == outs[..i];
      MapAllSticks(hlsOf, outs, i + 1);
    } else {
      assert outs[..i] == outs;
    }
  }

  /** the loop over the outputs, with its inner loops over their input files
    * and over the collected keys */
  method MapOutputs(hlsOf: Namer, outs: seq<Output>) returns (r: Result<Refs, Failure>)
    ensures r == MapAll(hlsOf, outs)
  {
    var refs := Refs([], map[]);
    for i := 0 to |outs|
      invariant MapAll(hlsOf, outs[..i]) == Ok(refs)
    {
      assert outs[..i + 1][..i] == outs[..i];
      var o := outs[i];
      var filtered: seq<Key> := [];
      for j := 0 to |o.inputs|
        invariant filtered == Collect(hlsOf, o.day, o.inputs[..j])
      {
        assert o.inputs[..j + 1][..j] == o.inputs[..j];
        var stripped := hlsOf(o.inputs[j]);
        if stripped.Some? && Key(stripped.value, o.day) !in filtered {
          filtered := filtered + [Key(stripped.value, o.day)];
        }
      }
      assert o.inputs[..|o.inputs|] == o.inputs;
      if |filtered| == 0 {
        MapAllSticks(hlsOf, outs, i + 1);
        return Err(NoInputs(o.id));
      }
      var next := refs;
      for j := 0 to |filtered|
        invariant next == AppendAll(refs, filtered[..j], o.id)
      {
        assert filtered[..j + 1][..j] == filtered[..j];
        var k := filtered[j];
        if k in next.lists {
          next := Refs(next.keys, next.lists[k := next.lists[k] + [o.id]]);
        } else {
          next := Refs(next.keys + [k], next.lists[k := [o.id]]);
        }
      }
      assert filtered[..|filtered|] == filtered;
      refs := next;
    }
    assert outs[..|outs|] == outs;
    r := Ok(refs);
  }

  // ------------------------------------------- what the output loop builds

  /** the collected list is the set of named keys, without repeats */
  lemma {:induction false} CollectIsNamed(hlsOf: Namer, o: Output, n: nat)
    requires n <= |o.inputs|
    ensures var ks := Collect(hlsOf, o.day, o.inputs[..n]);
      && Distinct(ks)
      && forall k :: k in ks <==> exists i :: i in o.inputs[..n] && hlsOf(i).Some? && k == Key(hlsOf(i).value, o.day)
  {
    if n > 0 {
      CollectIsNamed(hlsOf, o, n - 1);
      assert o.inputs[..n][..n - 1] == o.inputs[..n - 1];
      assert o.inputs[..n] == o.inputs[..n - 1] + [o.inputs[n - 1]];
    }
  }

  lemma {:induction false} CollectNamed(hlsOf: Namer, o: Output)
    ensures Distinct(Collect(hlsOf, o.day, o.inputs))
    ensures forall k :: k in Collect(hlsOf, o.day, o.inputs) <==> k in Named(hlsOf, o)
  {
    CollectIsNamed(hlsOf, o, |o.inputs|);
    assert o.inputs[..|o.inputs|] == o.inputs;
  }

  /** the outputs naming `k`, in output order: the list the script builds for `k` */
  ghost function Referrers(hlsOf: Namer, outs: seq<Output>, k: Key): seq<string>
  {
    if outs == [] then []
    else
      var o := outs[|outs| - 1];
      Referrers(hlsOf, outs[..|outs| - 1], k) + (if k in Named(hlsOf, o) then [o.id] else [])
  }

  /** one `setdefault(k, []).append(gid)`: a new key goes to the end with `[gid]`,
    * a present key gets `gid` appended, nothing else changes */
  lemma {:induction false} AppendSpec(r: Refs, k: Key, gid: string)
    requires Valid(r)
    ensures var q := Append(r, k, gid);
      && Valid(q)
      && q.lists.Keys == r.lists.Keys + {k}
      && q.lists[k] == (if k in r.lists then r.lists[k] else []) + [gid]
      && (forall k' :: k' in r.lists && k' != k ==> q.lists[k'] == r.lists[k'])
      && |q.keys| >= |r.keys| && q.keys[..|r.keys|] == r.keys
  {
    if k !in r.lists {
      var q := Append(r, k, gid);
      assert q.keys[..|r.keys|] == r.keys;
      assert forall k' :: k' in q.keys <==> k' in r.keys || k' == k;
    }
  }

  lemma {:induction false} AppendAllSpec(r: Refs, ks: seq<Key>, gid: string)
    requires Valid(r) && Distinct(ks)
    ensures AppendedTo(r, ks, gid, AppendAll(r, ks, gid))
  {
    if ks != [] {
      var init := ks[..|ks| - 1];
      var last := ks[|ks| - 1];
      assert ks == init + [last];
      assert Distinct(init) && last !in init;
      AppendAllSpec(r, init, gid);
      AppendStep(r, init, last, gid, AppendAll(r, init, gid));
    }
  }

  /** `q` is `r` with `gid` appended to the list of every key of `ks`, new keys last */
  ghost predicate AppendedTo(r: Refs, ks: seq<Key>, gid: string, q: Refs)
  {
    && Valid(q)
    && (forall k :: k in q.lists <==> k in r.lists || k in ks)
    && (forall k :: k in q.lists ==> q.lists[k] == (if k in r.lists then r.lists[k] else []) + (if k in ks then [gid] else []))
    && |q.keys| >= |r.keys| && q.keys[..|r.keys|] == r.keys
  }

  lemma {:induction false} AppendStep(r: Refs, ks: seq<Key>, k: Key, gid: string, p: Refs)
    requires AppendedTo(r, ks, gid, p) && k !in ks
    ensures AppendedTo(r, ks + [k], gid, Append(p, k, gid))
  {
    AppendStepLists(r, ks, k, gid, p);
    AppendStepKeys(r, ks, k, gid, p);
  }

  lemma {:induction false} AppendStepLists(r: Refs, ks: seq<Key>, k: Key, gid: string, p: Refs)
    requires k !in ks
    requires forall j :: j in p.lists <==> j in r.lists || j in ks
    requires forall j :: j in p.lists ==> p.lists[j] == (if j in r.lists then r.lists[j] else []) + (if j in ks then [gid] else [])
    ensures var q := Append(p, k, gid);
      && (forall j :: j in q.lists <==> j in r.lists || j in ks + [k])
      && (forall j :: j in q.lists ==> q.lists[j] == (if j in r.lists then r.lists[j] else []) + (if j in ks + [k] then [gid] else []))
  {
    var q := Append(p, k, gid);
    assert q.lists == p.lists[k := if k in p.lists then p.lists[k] + [gid] else [gid]];
    forall j ensures j in ks + [k] <==> j in ks || j == k {}
  }

  lemma {:induction false} AppendStepKeys(r: Refs, ks: seq<Key>, k: Key, gid: string, p: Refs)
    requires |p.keys| >= |r.keys| && p.keys[..|r.keys|] == r.keys && Valid(p)
    ensures var q := Append(p, k, gid); Valid(q) && |q.keys| >= |r.keys| && q.keys[..|r.keys|] == r.keys
  {
    AppendSpec(p, k, gid);
    var q := Append(p, k, gid);
    assert q.keys[..|p.keys|][..|r.keys|] == q.keys[..|r.keys|];
  }

  /** an output names no key exactly when its collected list is empty */
  lemma {:induction false} CollectEmpty(hlsOf: Namer, o: Output)
    ensures Collect(hlsOf, o.day, o.inputs) == [] <==> Named(hlsOf, o) == {}
  {
    CollectNamed(hlsOf, o);
    var ks := Collect(hlsOf, o.day, o.inputs);
    if ks != [] { assert ks[0] in Named(hlsOf, o); }
    if Named(hlsOf, o) != {} { var k :| k in Named(hlsOf, o); assert k in ks; }
  }

  /** some output names `k` exactly when it has a referrer */
  lemma {:induction false} ReferrersSpec(hlsOf: Namer, outs: seq<Output>, k: Key)
    ensures Referrers(hlsOf, outs, k) != [] <==> exists j :: 0 <= j < |outs| && k in Named(hlsOf, outs[j])
  {
    if outs != [] {
      var init := outs[..|outs| - 1];
      ReferrersSpec(hlsOf, init, k);
      if exists j :: 0 <= j < |outs| && k in Named(hlsOf, outs[j]) {
        var j :| 0 <= j < |outs| && k in Named(hlsOf, outs[j]);
        if j < |init| { assert init[j] == outs[j]; }
      }
      if exists j :: 0 <= j < |init| && k in Named(hlsOf, init[j]) {
        var j :| 0 <= j < |init| && k in Named(hlsOf, init[j]);
        assert outs[j] == init[j];
      }
    }
  }

  /** after the loop: a key is present exactly when some output names it, and its
    * list holds each output naming it once, in output order */
  lemma {:induction false} MapAllSpec(hlsOf: Namer, outs: seq<Output>)
    requires MapAll(hlsOf, outs).Ok?
    ensures var r := MapAll(hlsOf, outs).value;
      && Valid(r)
      && forall k :: (k in r.lists <==> Referrers(hlsOf, outs, k) != [])
                  && (k in r.lists ==> r.lists[k] == Referrers(hlsOf, outs, k))
  {
    if outs != [] {
      var init := outs[..|outs| - 1];
      var o := outs[|outs| - 1];
      MapAllSpec(hlsOf, init);
      var r0 := MapAll(hlsOf, init).value;
      var ks := Collect(hlsOf, o.day, o.inputs);
      CollectNamed(hlsOf, o);
      AppendAllSpec(r0, ks, o.id);
    } else {
      assert Valid(Refs([], map[]));
    }
  }

  /** the keys are exactly those some output names, none with an empty list */
  lemma {:induction false} MappedKeys(hlsOf: Namer, outs: seq<Output>)
    requires MapAll(hlsOf, outs).Ok?
    ensures var r := MapAll(hlsOf, outs).value;
      && Valid(r)
      && (forall k :: k in r.lists <==> exists j :: 0 <= j < |outs| && k in Named(hlsOf, outs[j]))
      && (forall k :: k in r.lists ==> r.lists[k] != [])
  {
    MapAllSpec(hlsOf, outs);
    forall k ensures Referrers(hlsOf, outs, k) != [] <==> exists j :: 0 <= j < |outs| && k in Named(hlsOf, outs[j]) {
      ReferrersSpec(hlsOf, outs, k);
    }
  }

  /** the first output naming no HLS file */
  ghost predicate FirstSilent(hlsOf: Namer, outs: seq<Output>, j: int)
  {
    0 <= j < |outs| && Named(hlsOf, outs[j]) == {} && forall i :: 0 <= i < j ==> Named(hlsOf, outs[i]) != {}
  }

  /** the script raises exactly when some output names no HLS file, on the first such
    * output; otherwise every output names at least one */
  lemma {:induction false} MapAllFails(hlsOf: Namer, outs: seq<Output>)
    ensures MapAll(hlsOf, outs).Ok? ==> forall j :: 0 <= j < |outs| ==> Named(hlsOf, outs[j]) != {}
    ensures MapAll(hlsOf, outs).Err? ==> exists j :: FirstSilent(hlsOf, outs, j) && MapAll(hlsOf, outs).error == NoInputs(outs[j].id)
  {
    if outs != [] {
      var init := outs[..|outs| - 1];
      var o := outs[|outs| - 1];
      assert outs == init + [o];
      MapAllFails(hlsOf, init);
      CollectEmpty(hlsOf, o);
      if MapAll(hlsOf, init).Err? {
        var j :| FirstSilent(hlsOf, init, j) && MapAll(hlsOf, init).error == NoInputs(init[j].id);
        SilentExtends(hlsOf, init, o, j);
      } else {
        NamedExtends(hlsOf, init, o);
      }
    }
  }

  lemma {:induction false} SilentExtends(hlsOf: Namer, init: seq<Output>, o: Output, j: int)
    requires FirstSilent(hlsOf, init, j)
    ensures FirstSilent(hlsOf, init + [o], j) && (init + [o])[j] == init[j]
  {
    var outs := init + [o];
    assert forall i :: 0 <= i < |init| ==> outs[i] == init[i];
  }

  lemma {:induction false} NamedExtends(hlsOf: Namer, init: seq<Output>, o: Output)
    requires forall j :: 0 <= j < |init| ==> Named(hlsOf, init[j]) != {}
    ensures Named(hlsOf, o) != {} ==> forall j :: 0 <= j < |init| + 1 ==> Named(hlsOf, (init + [o])[j]) != {}
    ensures Named(hlsOf, o) == {} ==> FirstSilent(hlsOf, init + [o], |init|)
  {
    var outs := init + [o];
    assert forall i :: 0 <= i < |init| ==> outs[i] == init[i];
  }

  // ------------------------------------------------ the HLS granule stage

  /** the HLS-L granules kept: those whose platforms do not include `LANDSAT-9` */
  function Kept(ls: seq<HlsGranule>): seq<HlsGranule>
  {
    if ls == [] then []
    else Kept(ls[..|ls| - 1]) + (if "LANDSAT-9" in ls[|ls| - 1].platforms then [] else [ls[|ls| - 1]])
  }

  lemma {:induction false} KeptSpec(ls: seq<HlsGranule>)
    ensures forall g :: g in Kept(ls) <==> g in ls && "LANDSAT-9" !in g.platforms
  {
    if ls != [] {
      KeptSpec(ls[..|ls| - 1]);
      assert ls == ls[..|ls| - 1] + [ls[|ls| - 1]];
    }
  }

  /** the key of an HLS granule: its identifier and its date */
  function KeyOf(g: HlsGranule): Key { Key(g.id, g.day) }

  /** `if key not in hls_to_dswx: hls_to_dswx[key] = []` */
  function Touch(r: Refs, k: Key): Refs
  {
    if k in r.lists then r else Refs(r.keys + [k], r.lists[k := []])
  }

  function TouchAll(r: Refs, gs: seq<HlsGranule>): Refs
  {
    if gs == [] then r else Touch(TouchAll(r, gs[..|gs| - 1]), KeyOf(gs[|gs| - 1]))
  }

  /** the Landsat-9 filter and the loop over the HLS-S and the kept HLS-L granules */
  method AddUnmapped(r: Refs, ss: seq<HlsGranule>, ls: seq<HlsGranule>) returns (q: Refs)
    ensures q == TouchAll(r, ss + Kept(ls))
  {
    var kept := KeepLoop(ls);
    var gs := ss + kept;
    q := r;
    for i := 0 to |gs|
      invariant q == TouchAll(r, gs[..i])
    {
      assert gs[..i + 1][..i] == gs[..i];
      var k := KeyOf(gs[i]);
      if k !in q.lists {
        q := Refs(q.keys + [k], q.lists[k := []]);
      }
    }
    assert gs[..|gs|] == gs;
  }

  /** the Landsat-9 filter */
  method KeepLoop(ls: seq<HlsGranule>) returns (kept: seq<HlsGranule>)
    ensures kept == Kept(ls)
  {
    kept := [];
    for i := 0 to |ls|
      invariant kept == Kept(ls[..i])
    {
      assert ls[..i + 1][..i] == ls[..i];
      if "LANDSAT-9" !in ls[i].platforms {
        kept := kept + [ls[i]];
      }
    }
    assert ls[..|ls|] == ls;
  }

  /** the granules only add keys, each with an empty list, at the end; what was
    * there stays as it was */
  lemma {:induction false} TouchAllSpec(r: Refs, gs: seq<HlsGranule>)
    requires Valid(r)
    ensures TouchedBy(r, gs, TouchAll(r, gs))
  {
    if gs != [] {
      var init := gs[..|gs| - 1];
      var g := gs[|gs| - 1];
      assert gs == init + [g];
      TouchAllSpec(r, init);
      TouchStep(r, init, g, TouchAll(r, init));
    }
  }

  /** `q` is `r` with an empty list for every new key of a granule of `gs`, at the end */
  ghost predicate TouchedBy(r: Refs, gs: seq<HlsGranule>, q: Refs)
  {
    && Valid(q)
    && (forall k :: k in q.lists <==> k in r.lists || exists g :: g in gs && KeyOf(g) == k)
    && (forall k :: k in q.lists ==> q.lists[k] == if k in r.lists then r.lists[k] else [])
    && |q.keys| >= |r.keys| && q.keys[..|r.keys|] == r.keys
  }

  lemma {:induction false} TouchStep(r: Refs, gs: seq<HlsGranule>, g: HlsGranule, p: Refs)
    requires TouchedBy(r, gs, p)
    ensures TouchedBy(r, gs + [g], Touch(p, KeyOf(g)))
  {
    if KeyOf(g) !in p.lists {
      TouchStepLists(r, gs, g, p);
      TouchStepKeys(r, g, p);
    } else {
      assert forall h :: h in gs + [g] <==> h in gs || h == g;
    }
  }

  lemma {:induction false} TouchStepLists(r: Refs, gs: seq<HlsGranule>, g: HlsGranule, p: Refs)
    requires TouchedBy(r, gs, p) && KeyOf(g) !in p.lists
    ensures var q := Touch(p, KeyOf(g));
      && (forall k :: k in q.lists <==> k in r.lists || exists h :: h in gs + [g] && KeyOf(h) == k)
      && (forall k :: k in q.lists ==> q.lists[k] == if k in r.lists then r.lists[k] else [])
  {
    assert forall h :: h in gs + [g] <==> h in gs || h == g;
  }

  lemma {:induction false} TouchStepKeys(r: Refs, g: HlsGranule, p: Refs)
    requires Valid(p) && |p.keys| >= |r.keys| && p.keys[..|r.keys|] == r.keys && KeyOf(g) !in p.lists
    ensures var q := Touch(p, KeyOf(g));
      && Valid(q) && |q.keys| >= |r.keys| && q.keys[..|r.keys|] == r.keys
  {
    var q := Touch(p, KeyOf(g));
    assert q.keys[..|p.keys|] == p.keys;
    assert q.keys[..|r.keys|] == p.keys[..|r.keys|];
    assert forall k :: k in q.keys <==> k in p.keys || k == KeyOf(g);
  }

  /** `hls_to_dswx` once both stages are done */
  function Mapping(hlsOf: Namer, outs: seq<Output>, ss: seq<HlsGranule>, ls: seq<HlsGranule>): (q: Result<Refs, Failure>)
    ensures q.Ok? ==> Valid(q.value)
  {
    match MapAll(hlsOf, outs)
    case Err(e) => Err(e)
    case Ok(r) =>
      MapAllSpec(hlsOf, outs);
      TouchAllSpec(r, ss + Kept(ls));
      Ok(TouchAll(r, ss + Kept(ls)))
  }

  /** a key is present exactly when an output names it or it is an HLS-S granule or an
    * HLS-L granule not flown by Landsat-9; its list is the outputs naming it */
  lemma {:induction false} MappingSpec(hlsOf: Namer, outs: seq<Output>, ss: seq<HlsGranule>, ls: seq<HlsGranule>)
    requires Mapping(hlsOf, outs, ss, ls).Ok?
    ensures var q := Mapping(hlsOf, outs, ss, ls).value;
      && Valid(q)
      && (forall k :: k in q.lists <==>
            || Referrers(hlsOf, outs, k) != []
            || (exists g :: g in ss && KeyOf(g) == k)
            || (exists g :: g in ls && "LANDSAT-9" !in g.platforms && KeyOf(g) == k))
      && (forall k :: k in q.lists ==> q.lists[k] == Referrers(hlsOf, outs, k))
  {
    var r := MapAll(hlsOf, outs).value;
    MapAllSpec(hlsOf, outs);
    TouchAllSpec(r, ss + Kept(ls));
    KeptSpec(ls);
    assert forall g :: g in ss + Kept(ls) <==> g in ss || (g in ls && "LANDSAT-9" !in g.platforms);
  }

  /** the keys the granule stage adds are exactly the ones with an empty list, so
    * `len(hls_to_dswx) - n_dswx_hls_inputs` counts the unmapped granules */
  lemma {:induction false} UnmappedAtEnd(hlsOf: Namer, outs: seq<Output>, ss: seq<HlsGranule>, ls: seq<HlsGranule>)
    requires Mapping(hlsOf, outs, ss, ls).Ok?
    ensures var n := |MapAll(hlsOf, outs).value.keys|;
      var q := Mapping(hlsOf, outs, ss, ls).value;
      && n <= |q.keys|
      && forall i :: 0 <= i < |q.keys| ==> (q.keys[i] in q.lists && (q.lists[q.keys[i]] == [] <==> n <= i))
  {
    var r := MapAll(hlsOf, outs).value;
    var q := Mapping(hlsOf, outs, ss, ls).value;
    MappedKeys(hlsOf, outs);
    TouchAllSpec(r, ss + Kept(ls));
    forall i | 0 <= i < |q.keys| ensures q.keys[i] in q.lists && (q.lists[q.keys[i]] == [] <==> |r.keys| <= i) {
      if i < |r.keys| {
        assert q.keys[i] == q.keys[..|r.keys|][i] == r.keys[i];
      }
    }
  }

  // ------------------------------------------------------ grouping by date

  /** a Python dict: its values, and its keys in insertion order */
  datatype Dict<K, V> = Dict(keys: seq<K>, vals: map<K, V>)

  ghost predicate DictValid<K(!new), V>(d: Dict<K, V>)
  {
    Distinct(d.keys) && forall k :: k in d.vals <==> k in d.keys
  }

  /** `d[k] = v`: a new key goes to the end, a present one keeps its place */
  function Put<K, V>(d: Dict<K, V>, k: K, v: V): Dict<K, V>
  {
    if k in d.vals then Dict(d.keys, d.vals[k := v]) else Dict(d.keys + [k], d.vals[k := v])
  }

  lemma {:induction false} PutValid<K(!new), V>(d: Dict<K, V>, k: K, v: V)
    requires DictValid(d)
    ensures DictValid(Put(d, k, v))
  {
    if k !in d.vals {
      assert forall j :: j in d.keys + [k] <==> j in d.keys || j == k;
    }
  }

  /** `date_map[date]`: the HLS identifiers of one date and their lists */
  type Group = Dict<string, seq<string>>

  /** `date_map` and `hls_mappings` */
  datatype Grouped = Grouped(dates: Dict<Day, Group>, byHls: Dict<string, seq<string>>)

  /** `date_map.setdefault(date, {})[hls] = v` */
  function PutDated(dates: Dict<Day, Group>, k: Key, v: seq<string>): Dict<Day, Group>
  {
    var g := if k.day in dates.vals then dates.vals[k.day] else Dict([], map[]);
    Put(dates, k.day, Put(g, k.hls, v))
  }

  ghost predicate DatesValid(dates: Dict<Day, Group>)
  {
    DictValid(dates) && forall d :: d in dates.vals ==> DictValid(dates.vals[d])
  }

  /** one pass: the date is added if new, and `v` is filed under the key, nothing
    * else changes */
  lemma {:induction false} PutDatedSpec(dates: Dict<Day, Group>, k: Key, v: seq<string>)
    requires DatesValid(dates)
    ensures var after := PutDated(dates, k, v);
      && DatesValid(after)
      && (forall d :: d in after.vals <==> d in dates.vals || d == k.day)
      && (forall d, h :: d in after.vals ==>
            (h in after.vals[d].vals <==> (d in dates.vals && h in dates.vals[d].vals) || Key(h, d) == k))
      && (forall d, h :: d in after.vals && h in after.vals[d].vals ==>
            after.vals[d].vals[h] == if Key(h, d) == k then v else dates.vals[d].vals[h])
  {
    var g := if k.day in dates.vals then dates.vals[k.day] else Dict([], map[]);
    assert DictValid(g);
    PutValid(g, k.hls, v);
    var g' := Put(g, k.hls, v);
    PutValid(dates, k.day, g');
    assert PutDated(dates, k, v) == Put(dates, k.day, g');
  }

  /** the grouping loop over the keys `ks` */
  function GroupAll(r: Refs, ks: seq<Key>): Grouped
    requires forall k :: k in ks ==> k in r.lists
  {
    Grouped(DatesAll(r, ks), HlsAll(r, ks))
  }

  function DatesAll(r: Refs, ks: seq<Key>): Dict<Day, Group>
    requires forall k :: k in ks ==> k in r.lists
  {
    if ks == [] then Dict([], map[])
    else var k := ks[|ks| - 1]; PutDated(DatesAll(r, ks[..|ks| - 1]), k, r.lists[k])
  }

  /** `hls_mappings[hls] = v` over the keys `ks` */
  function HlsAll(r: Refs, ks: seq<Key>): Dict<string, seq<string>>
    requires forall k :: k in ks ==> k in r.lists
  {
    if ks == [] then Dict([], map[])
    else var k := ks[|ks| - 1]; Put(HlsAll(r, ks[..|ks| - 1]), k.hls, r.lists[k])
  }

  /** the loop over `hls_to_dswx` filling `date_map` and `hls_mappings` */
  method GroupByDate(r: Refs) returns (gr: Grouped)
    requires Valid(r)
    ensures gr == GroupAll(r, r.keys)
  {
    gr := Grouped(Dict([], map[]), Dict([], map[]));
    for i := 0 to |r.keys|
      invariant gr == GroupAll(r, r.keys[..i])
    {
      assert r.keys[..i + 1][..i] == r.keys[..i];
      var k := r.keys[i];
      var v := r.lists[k];
      var dates := gr.dates;
      if k.day !in dates.vals {
        dates := Dict(dates.keys + [k.day], dates.vals[k.day := Dict([], map[])]);
      }
      var g := dates.vals[k.day];
      g := if k.hls in g.vals then Dict(g.keys, g.vals[k.hls := v]) else Dict(g.keys + [k.hls], g.vals[k.hls := v]);
      dates := Dict(dates.keys, dates.vals[k.day := g]);
      var byHls := gr.byHls;
      byHls := if k.hls in byHls.vals then Dict(byHls.keys, byHls.vals[k.hls := v])
               else Dict(byHls.keys + [k.hls], byHls.vals[k.hls := v]);
      gr := Grouped(dates, byHls);
    }
    assert r.keys[..|r.keys|] == r.keys;
  }

  /** `date_map` holds one group per date of a key in `ks`, and the group of a date
    * holds the list of every such key of that date, under its HLS identifier */
  ghost predicate GroupedBy(r: Refs, ks: seq<Key>, dates: Dict<Day, Group>)
  {
    && DatesValid(dates)
    && (forall d :: d in dates.vals <==> exists h :: Key(h, d) in ks)
    && (forall d, h :: d in dates.vals ==> (h in dates.vals[d].vals <==> Key(h, d) in ks))
    && (forall d, h :: d in dates.vals && h in dates.vals[d].vals ==>
          Key(h, d) in r.lists && dates.vals[d].vals[h] == r.lists[Key(h, d)])
  }

  /** `date_map` holds one group per date of a key, and the group of a date holds
    * the list of every key of that date, under its HLS identifier */
  lemma {:induction false} GroupSpec(r: Refs, n: nat)
    requires Valid(r) && n <= |r.keys|
    ensures GroupedBy(r, r.keys[..n], DatesAll(r, r.keys[..n]))
  {
    if n > 0 {
      var ks, k := r.keys[..n - 1], r.keys[n - 1];
      assert r.keys[..n] == ks + [k];
      GroupSpec(r, n - 1);
      DatesAllSnoc(r, ks, k);
      GroupStep(r, ks, k, DatesAll(r, ks));
    }
  }

  lemma {:induction false} DatesAllSnoc(r: Refs, ks: seq<Key>, k: Key)
    requires k in r.lists && forall j :: j in ks ==> j in r.lists
    ensures DatesAll(r, ks + [k]) == PutDated(DatesAll(r, ks), k, r.lists[k])
  {
    assert (ks + [k])[..|ks|] == ks;
  }

  lemma {:induction false} GroupStep(r: Refs, ks: seq<Key>, k: Key, before: Dict<Day, Group>)
    requires k in r.lists && GroupedBy(r, ks, before)
    ensures GroupedBy(r, ks + [k], PutDated(before, k, r.lists[k]))
  {
    GroupStepDays(r, ks, k, before);
    GroupStepKeys(r, ks, k, before);
    GroupStepLists(r, ks, k, before);
  }

  lemma {:induction false} GroupStepLists(r: Refs, ks: seq<Key>, k: Key, before: Dict<Day, Group>)
    requires k in r.lists && GroupedBy(r, ks, before)
    ensures var after := PutDated(before, k, r.lists[k]);
      && DatesValid(after)
      && forall d, h :: d in after.vals && h in after.vals[d].vals ==>
           Key(h, d) in r.lists && after.vals[d].vals[h] == r.lists[Key(h, d)]
  {
    PutDatedSpec(before, k, r.lists[k]);
  }

  lemma {:induction false} GroupStepDays(r: Refs, ks: seq<Key>, k: Key, before: Dict<Day, Group>)
    requires k in r.lists && GroupedBy(r, ks, before)
    ensures var after := PutDated(before, k, r.lists[k]);
      forall d :: d in after.vals <==> exists h :: Key(h, d) in ks + [k]
  {
    var after := PutDated(before, k, r.lists[k]);
    var ks' := ks + [k];
    PutDatedSpec(before, k, r.lists[k]);
    forall d ensures d in after.vals <==> exists h :: Key(h, d) in ks' {
      if exists h :: Key(h, d) in ks' {
        var h :| Key(h, d) in ks';
        if Key(h, d) != k { assert Key(h, d) in ks; }
      }
      if d in before.vals {
        var h :| Key(h, d) in ks;
        assert Key(h, d) in ks';
      }
      if d == k.day { assert Key(k.hls, d) in ks'; }
    }
  }

  lemma {:induction false} GroupStepKeys(r: Refs, ks: seq<Key>, k: Key, before: Dict<Day, Group>)
    requires k in r.lists && GroupedBy(r, ks, before)
    ensures var after := PutDated(before, k, r.lists[k]);
      forall d, h :: d in after.vals ==> (h in after.vals[d].vals <==> Key(h, d) in ks + [k])
  {
    var after := PutDated(before, k, r.lists[k]);
    PutDatedSpec(before, k, r.lists[k]);
    forall d, h | d in after.vals ensures h in after.vals[d].vals <==> Key(h, d) in ks + [k] {
      if Key(h, d) in ks { assert d in before.vals; }
    }
  }

  /** `r.keys[i]` is the last of the first `n` keys with HLS identifier `h` */
  ghost predicate LastOf(r: Refs, n: nat, h: string, i: int)
  {
    0 <= i < n <= |r.keys| && r.keys[i].hls == h && forall j :: i < j < n ==> r.keys[j].hls != h
  }

  /** `hls_mappings` is keyed by the HLS identifier alone: when one identifier comes
    * with several dates, the list of the last of them is the one kept */
  lemma {:induction false} ByHlsSpec(r: Refs, n: nat)
    requires Valid(r) && n <= |r.keys|
    ensures HlsMapped(r, n, HlsAll(r, r.keys[..n]))
  {
    if n > 0 {
      TakeOneMore(r.keys, n);
      var k := r.keys[n - 1];
      var before := HlsAll(r, r.keys[..n - 1]);
      assert HlsAll(r, r.keys[..n]) == Put(before, k.hls, r.lists[k]);
      ByHlsSpec(r, n - 1);
      ByHlsStepKeys(r, n, before);
      ByHlsStepLists(r, n, before);
    }
  }

  /** `b` has the HLS identifiers of the first `n` keys, each with the list of the
    * last of those keys to carry it */
  ghost predicate HlsMapped(r: Refs, n: nat, b: Dict<string, seq<string>>)
  {
    && Valid(r) && n <= |r.keys|
    && DictValid(b)
    && (forall h :: h in b.vals <==> exists i :: 0 <= i < n && r.keys[i].hls == h)
    && (forall h :: h in b.vals ==> exists i :: LastOf(r, n, h, i) && b.vals[h] == r.lists[r.keys[i]])
  }

  lemma {:induction false} ByHlsStepKeys(r: Refs, n: nat, before: Dict<string, seq<string>>)
    requires 0 < n && HlsMapped(r, n - 1, before) && n <= |r.keys|
    ensures var k := r.keys[n - 1]; var b := Put(before, k.hls, r.lists[k]);
      DictValid(b) && forall h :: h in b.vals <==> exists i :: 0 <= i < n && r.keys[i].hls == h
  {
    var k := r.keys[n - 1];
    var b := Put(before, k.hls, r.lists[k]);
    PutValid(before, k.hls, r.lists[k]);
    forall h ensures h in b.vals <==> exists i :: 0 <= i < n && r.keys[i].hls == h {
      if h in before.vals {
        var i :| 0 <= i < n - 1 && r.keys[i].hls == h;
        assert 0 <= i < n;
      }
      if exists i :: 0 <= i < n && r.keys[i].hls == h {
        var i :| 0 <= i < n && r.keys[i].hls == h;
        if i < n - 1 { assert h in before.vals; }
      }
    }
  }

  lemma {:induction false} ByHlsStepLists(r: Refs, n: nat, before: Dict<string, seq<string>>)
    requires 0 < n && HlsMapped(r, n - 1, before) && n <= |r.keys|
    ensures var k := r.keys[n - 1]; var b := Put(before, k.hls, r.lists[k]);
      forall h :: h in b.vals ==> exists i :: LastOf(r, n, h, i) && b.vals[h] == r.lists[r.keys[i]]
  {
    var k := r.keys[n - 1];
    var b := Put(before, k.hls, r.lists[k]);
    assert LastOf(r, n, k.hls, n - 1);
    forall h | h in b.vals ensures exists i :: LastOf(r, n, h, i) && b.vals[h] == r.lists[r.keys[i]] {
      if h != k.hls {
        var i :| LastOf(r, n - 1, h, i) && before.vals[h] == r.lists[r.keys[i]];
        assert LastOf(r, n, h, i);
      }
    }
  }

  // ---------------------------------------------------------------- counts

  /** the four counts of the report */
  datatype Measure = HlsGranules | Matched | ToMany | ToNone

  /** what one HLS granule with DSWx list `l` adds to a count */
  function Tally(m: Measure, l: seq<string>): nat
  {
    match m
    case HlsGranules => 1
    case Matched => |l|
    case ToMany => if |l| > 1 then 1 else 0
    case ToNone => if |l| == 0 then 1 else 0
  }

  function TallyOf(m: Measure): seq<string> -> int { l => Tally(m, l) }

  /** `hls_granules`, `matched_dswx_hls_granules`, `hls_to_many_dswx`, `hls_to_no_dswx` */
  datatype Counts = Counts(hls: int, matched: int, many: int, none: int)

  function Field(c: Counts, m: Measure): int
  {
    match m
    case HlsGranules => c.hls
    case Matched => c.matched
    case ToMany => c.many
    case ToNone => c.none
  }

  function FieldOf(m: Measure): Counts -> int { c => Field(c, m) }

  /** a count over the lists of one group */
  function GroupTally(m: Measure, g: Group): int
  {
    if forall h :: h in g.keys ==> h in g.vals then SumMap(g.keys, g.vals, TallyOf(m)) else 0
  }

  function GroupTallyOf(m: Measure): Group -> int { g => GroupTally(m, g) }

  /** `date_counts[date]`: the group's size and the three sums over its lists */
  function DayCounts(g: Group): Counts
  {
    Counts(|g.keys|, GroupTally(Matched, g), GroupTally(ToMany, g), GroupTally(ToNone, g))
  }

  /** `len(date_map[date])` is the count of its lists too */
  lemma {:induction false} DayCountsTally(g: Group, m: Measure)
    requires DictValid(g)
    ensures Field(DayCounts(g), m) == GroupTally(m, g)
  {
    if m == HlsGranules { SumMapConst(g.keys, g.vals, TallyOf(m), 1); }
  }

  function Plus(a: Counts, b: Counts): (c: Counts)
    ensures forall m :: Field(c, m) == Field(a, m) + Field(b, m)
  {
    Counts(a.hls + b.hls, a.matched + b.matched, a.many + b.many, a.none + b.none)
  }

  /** a count summed over the groups of `date_map` */
  function DatesTally(m: Measure, dates: Dict<Day, Group>): int
  {
    if forall d :: d in dates.keys ==> d in dates.vals then SumMap(dates.keys, dates.vals, GroupTallyOf(m)) else 0
  }

  lemma {:induction false} DatesTallyOfValid(dates: Dict<Day, Group>, m: Measure)
    requires DatesValid(dates)
    ensures DatesTally(m, dates) == SumMap(dates.keys, dates.vals, GroupTallyOf(m))
  {
  }

  lemma {:induction false} GroupAddTally(g: Group, h: string, v: seq<string>, m: Measure)
    requires DictValid(g) && h !in g.vals
    ensures GroupTally(m, Put(g, h, v)) == GroupTally(m, g) + Tally(m, v)
  {
    SumMapAdd(g.keys, g.vals, h, v, TallyOf(m));
  }

  lemma {:induction false} NewGroupTally(h: string, v: seq<string>, m: Measure)
    ensures GroupTally(m, Dict([h], map[h := v])) == Tally(m, v)
  {
    var g: Group := Dict([h], map[h := v]);
    assert [h][..0] == [];
    assert forall j :: j in g.keys ==> j in g.vals;
    assert SumMap(g.keys, g.vals, TallyOf(m)) == SumMap([], g.vals, TallyOf(m)) + TallyOf(m)(v);
  }

  /** filing a new list adds its tally to the sum over the groups */
  lemma {:induction false} PutDatedTally(dates: Dict<Day, Group>, k: Key, v: seq<string>, m: Measure)
    requires DatesValid(dates)
    requires k.day in dates.vals ==> k.hls !in dates.vals[k.day].vals
    ensures DatesTally(m, PutDated(dates, k, v)) == DatesTally(m, dates) + Tally(m, v)
  {
    if k.day in dates.vals {
      PutDatedTallyOld(dates, k, v, m);
    } else {
      PutDatedTallyNew(dates, k, v, m);
    }
  }

  /** a list filed under a date already present adds to that date's group */
  lemma {:induction false} PutDatedTallyOld(dates: Dict<Day, Group>, k: Key, v: seq<string>, m: Measure)
    requires DatesValid(dates) && k.day in dates.vals && k.hls !in dates.vals[k.day].vals
    ensures DatesTally(m, PutDated(dates, k, v)) == DatesTally(m, dates) + Tally(m, v)
  {
    var after := PutDated(dates, k, v);
    assert DatesValid(after) by { PutDatedSpec(dates, k, v); }
    DatesTallyOfValid(dates, m);
    DatesTallyOfValid(after, m);
    var g := dates.vals[k.day];
    GroupAddTally(g, k.hls, v, m);
    assert after == Dict(dates.keys, dates.vals[k.day := Put(g, k.hls, v)]);
    SumMapUpdate(dates.keys, dates.vals, k.day, Put(g, k.hls, v), GroupTallyOf(m));
  }

  /** a list filed under a new date appends that date with a one-entry group */
  lemma {:induction false} PutDatedNew(dates: Dict<Day, Group>, k: Key, v: seq<string>)
    requires k.day !in dates.vals
    ensures PutDated(dates, k, v) == Dict(dates.keys + [k.day], dates.vals[k.day := Dict([k.hls], map[k.hls := v])])
  {
    assert [] + [k.hls] == [k.hls] && map[][k.hls := v] == map[k.hls := v];
  }

  /** a list filed under a new date starts that date's group */
  lemma {:induction false} PutDatedTallyNew(dates: Dict<Day, Group>, k: Key, v: seq<string>, m: Measure)
    requires DatesValid(dates) && k.day !in dates.vals
    ensures DatesTally(m, PutDated(dates, k, v)) == DatesTally(m, dates) + Tally(m, v)
  {
    var f := GroupTallyOf(m);
    var g: Group := Dict([k.hls], map[k.hls := v]);
    var after := PutDated(dates, k, v);
    PutDatedNew(dates, k, v);
    assert forall d :: d in after.keys ==> d in after.vals;
    DatesTallyOfValid(dates, m);
    SumMapAdd(dates.keys, dates.vals, k.day, g, f);
    NewGroupTally(k.hls, v, m);
    assert f(g) == Tally(m, v);
  }

  /** summing a count over the dates sums it over every key of `hls_to_dswx` */
  lemma {:induction false} DatesTallyAll(r: Refs, n: nat, m: Measure)
    requires Valid(r) && n <= |r.keys|
    ensures DatesTally(m, DatesAll(r, r.keys[..n])) == SumMap(r.keys[..n], r.lists, TallyOf(m))
  {
    if n > 0 {
      DatesTallyAll(r, n - 1, m);
      GroupSpec(r, n - 1);
      var ks := r.keys[..n];
      assert ks[..n - 1] == r.keys[..n - 1];
      var k := r.keys[n - 1];
      assert k !in r.keys[..n - 1];
      PutDatedTally(DatesAll(r, r.keys[..n - 1]), k, r.lists[k], m);
    }
  }

  // --------------------------------------------- counts by date and by month

  /** `date_counts` and `month_counts` */
  datatype Tallies = Tallies(byDate: Dict<Day, Counts>, byMonth: Dict<string, Counts>)

  /** one pass of the counting loop, for date `d` with counts `c` */
  function CountStep(t: Tallies, d: Day, c: Counts): Tallies
  {
    var month := YearMonth(d);
    Tallies(Put(t.byDate, d, c),
            Put(t.byMonth, month, if month in t.byMonth.vals then Plus(t.byMonth.vals[month], c) else c))
  }

  function CountAll(dates: Dict<Day, Group>, ds: seq<Day>): Tallies
    requires forall d :: d in ds ==> d in dates.vals
  {
    if ds == [] then Tallies(Dict([], map[]), Dict([], map[]))
    else var d := ds[|ds| - 1]; CountStep(CountAll(dates, ds[..|ds| - 1]), d, DayCounts(dates.vals[d]))
  }

  /** the loop over `date_map` filling `date_counts` and `month_counts` */
  method CountByDate(dates: Dict<Day, Group>) returns (t: Tallies)
    requires forall d :: d in dates.keys ==> d in dates.vals
    ensures t == CountAll(dates, dates.keys)
  {
    t := Tallies(Dict([], map[]), Dict([], map[]));
    for i := 0 to |dates.keys|
      invariant forall d :: d in dates.keys[..i] ==> d in dates.vals
      invariant t == CountAll(dates, dates.keys[..i])
    {
      var d := dates.keys[i];
      var g := dates.vals[d];
      var c := Counts(|g.keys|, GroupTally(Matched, g), GroupTally(ToMany, g), GroupTally(ToNone, g));
      PrefixKeyed(dates, i + 1);
      CountAllNext(dates, i);
      assert c == DayCounts(g);
      t := CountDay(t, d, c);
    }
    assert dates.keys[..|dates.keys|] == dates.keys;
  }

  /** the counts of one more date are one more pass */
  lemma {:induction false} CountAllNext(dates: Dict<Day, Group>, n: nat)
    requires n < |dates.keys| && dates.keys[n] in dates.vals
    requires forall d :: d in dates.keys[..n + 1] ==> d in dates.vals
    requires forall d :: d in dates.keys[..n] ==> d in dates.vals
    ensures CountAll(dates, dates.keys[..n + 1])
      == CountStep(CountAll(dates, dates.keys[..n]), dates.keys[n], DayCounts(dates.vals[dates.keys[n]]))
  {
    var ks := dates.keys[..n + 1];
    assert ks[..n] == dates.keys[..n] && ks[n] == dates.keys[n];
  }

  /** every date of a prefix of the keys has a value */
  lemma {:induction false} PrefixKeyed(dates: Dict<Day, Group>, n: nat)
    requires forall d :: d in dates.keys ==> d in dates.vals
    requires n <= |dates.keys|
    ensures forall d :: d in dates.keys[..n] ==> d in dates.vals
  {
    assert forall d :: d in dates.keys[..n] ==> d in dates.keys;
  }

  /** one pass of that loop: `date_counts[date] = ...` and the month's running sum */
  method CountDay(t: Tallies, d: Day, c: Counts) returns (u: Tallies)
    ensures u == CountStep(t, d, c)
  {
    var byDate := if d in t.byDate.vals then Dict(t.byDate.keys, t.byDate.vals[d := c])
                  else Dict(t.byDate.keys + [d], t.byDate.vals[d := c]);
    var month := YearMonth(d);
    var byMonth := t.byMonth;
    if month !in byMonth.vals {
      byMonth := Dict(byMonth.keys + [month], byMonth.vals[month := c]);
    } else {
      byMonth := Dict(byMonth.keys, byMonth.vals[month := Plus(byMonth.vals[month], c)]);
    }
    u := Tallies(byDate, byMonth);
  }

  /** a sum over the values of a dict whose keys all have values */
  function Total<K(!new)>(d: Dict<K, Counts>, m: Measure): int
  {
    if forall k :: k in d.keys ==> k in d.vals then SumMap(d.keys, d.vals, FieldOf(m)) else 0
  }

  /** one pass with a new date: it goes to the end of `date_counts`, and its counts
    * add to both totals */
  lemma {:induction false} CountStepSpec(t: Tallies, d: Day, c: Counts)
    requires DictValid(t.byDate) && DictValid(t.byMonth) && d !in t.byDate.vals
    ensures var u := CountStep(t, d, c);
      && DictValid(u.byDate) && DictValid(u.byMonth)
      && u.byDate.keys == t.byDate.keys + [d] && u.byDate.vals == t.byDate.vals[d := c]
      && (forall month :: month in u.byMonth.vals <==> month in t.byMonth.vals || month == YearMonth(d))
      && forall m :: Total(u.byDate, m) == Total(t.byDate, m) + Field(c, m)
                  && Total(u.byMonth, m) == Total(t.byMonth, m) + Field(c, m)
  {
    var month := YearMonth(d);
    var mc := if month in t.byMonth.vals then Plus(t.byMonth.vals[month], c) else c;
    PutValid(t.byDate, d, c);
    PutValid(t.byMonth, month, mc);
    forall m ensures Total(CountStep(t, d, c).byDate, m) == Total(t.byDate, m) + Field(c, m)
                  && Total(CountStep(t, d, c).byMonth, m) == Total(t.byMonth, m) + Field(c, m)
    {
      PutTotal(t.byDate, d, c, m);
      PutTotal(t.byMonth, month, mc, m);
    }
  }

  /** `d[k] = v` replaces the value at `k` in every total */
  lemma {:induction false} PutTotal<K(!new)>(d: Dict<K, Counts>, k: K, v: Counts, m: Measure)
    requires DictValid(d)
    ensures Total(Put(d, k, v), m) == Total(d, m) + Field(v, m) - (if k in d.vals then Field(d.vals[k], m) else 0)
  {
    PutValid(d, k, v);
    TotalOfValid(d, m);
    TotalOfValid(Put(d, k, v), m);
    if k in d.vals {
      SumMapUpdate(d.keys, d.vals, k, v, FieldOf(m));
    } else {
      SumMapAdd(d.keys, d.vals, k, v, FieldOf(m));
    }
  }

  lemma {:induction false} TotalOfValid<K(!new)>(d: Dict<K, Counts>, m: Measure)
    requires DictValid(d)
    ensures Total(d, m) == SumMap(d.keys, d.vals, FieldOf(m))
  {
  }

  /** `date_counts` has each date's counts, in `date_map` order; `month_counts` has
    * one entry per month of a date, and both sum to the same totals */
  lemma {:induction false} CountAllSpec(dates: Dict<Day, Group>, n: nat)
    requires DatesValid(dates) && n <= |dates.keys|
    ensures CountedBy(dates, dates.keys[..n], CountAll(dates, dates.keys[..n]))
  {
    if n > 0 {
      TakeOneMore(dates.keys, n);
      var d := dates.keys[n - 1];
      var t := CountAll(dates, dates.keys[..n - 1]);
      assert CountAll(dates, dates.keys[..n]) == CountStep(t, d, DayCounts(dates.vals[d]));
      assert d !in dates.keys[..n - 1];
      CountAllSpec(dates, n - 1);
      CountAllStep(dates, dates.keys[..n - 1], d, t);
    }
  }

  /** one count summed over the dates of `ks` that fall in `month` */
  function MonthSum(dates: Dict<Day, Group>, ks: seq<Day>, month: string, m: Measure): int
  {
    if ks == [] then 0
    else
      var d := ks[|ks| - 1];
      MonthSum(dates, ks[..|ks| - 1], month, m) + (if d in dates.vals && YearMonth(d) == month then Field(DayCounts(dates.vals[d]), m) else 0)
  }

  /** `t` holds the counts of the dates `ks`: each date's counts, in order, and one
    * entry per month of a date holding the sum of that month's date counts, both
    * summing to the same totals */
  ghost predicate CountedBy(dates: Dict<Day, Group>, ks: seq<Day>, t: Tallies)
  {
    && DictValid(t.byDate) && DictValid(t.byMonth)
    && t.byDate.keys == ks
    && (forall d :: d in t.byDate.vals ==> d in dates.vals && t.byDate.vals[d] == DayCounts(dates.vals[d]))
    && (forall month :: month in t.byMonth.vals <==> exists d :: d in ks && YearMonth(d) == month)
    && (forall month, m :: month in t.byMonth.vals ==> Field(t.byMonth.vals[month], m) == MonthSum(dates, ks, month, m))
    && (forall m :: Total(t.byMonth, m) == Total(t.byDate, m))
  }

  /** a month none of whose dates is among `ks` sums to zero */
  lemma {:induction false} MonthSumAbsent(dates: Dict<Day, Group>, ks: seq<Day>, month: string, m: Measure)
    requires forall d :: d in ks ==> YearMonth(d) != month
    ensures MonthSum(dates, ks, month, m) == 0
  {
    if ks != [] {
      assert ks[|ks| - 1] in ks;
      assert forall d :: d in ks[..|ks| - 1] ==> d in ks;
      MonthSumAbsent(dates, ks[..|ks| - 1], month, m);
    }
  }

  /** the month sums after one more date */
  lemma {:induction false} MonthSumsStep(dates: Dict<Day, Group>, ks: seq<Day>, d: Day, t: Tallies)
    requires CountedBy(dates, ks, t) && d in dates.vals
    ensures var u := CountStep(t, d, DayCounts(dates.vals[d]));
      forall month, m :: month in u.byMonth.vals ==> Field(u.byMonth.vals[month], m) == MonthSum(dates, ks + [d], month, m)
  {
    var c := DayCounts(dates.vals[d]);
    var u := CountStep(t, d, c);
    assert (ks + [d])[..|ks|] == ks;
    forall month, m | month in u.byMonth.vals
      ensures Field(u.byMonth.vals[month], m) == MonthSum(dates, ks + [d], month, m)
    {
      assert MonthSum(dates, ks + [d], month, m) == MonthSum(dates, ks, month, m) + (if YearMonth(d) == month then Field(c, m) else 0);
      if month == YearMonth(d) && month !in t.byMonth.vals {
        MonthSumAbsent(dates, ks, month, m);
      }
    }
  }

  lemma {:induction false} CountAllStep(dates: Dict<Day, Group>, ks: seq<Day>, d: Day, t: Tallies)
    requires CountedBy(dates, ks, t) && d in dates.vals && d !in ks
    ensures CountedBy(dates, ks + [d], CountStep(t, d, DayCounts(dates.vals[d])))
  {
    var c := DayCounts(dates.vals[d]);
    var u := CountStep(t, d, c);
    assert DictValid(u.byDate) && DictValid(u.byMonth) && u.byDate.keys == ks + [d] && u.byDate.vals == t.byDate.vals[d := c] by {
      CountStepSpec(t, d, c);
    }
    assert forall month :: month in u.byMonth.vals <==> exists d' :: d' in ks + [d] && YearMonth(d') == month by {
      CountStepSpec(t, d, c);
      CountStepMonths(ks, d, t.byMonth.vals, u.byMonth.vals);
    }
    assert forall m :: Total(u.byMonth, m) == Total(u.byDate, m) by {
      CountStepSpec(t, d, c);
    }
    MonthSumsStep(dates, ks, d, t);
  }

  lemma {:induction false} CountStepMonths<V>(ks: seq<Day>, d: Day, before: map<string, V>, after: map<string, V>)
    requires forall month :: month in before <==> exists d' :: d' in ks && YearMonth(d') == month
    requires forall month :: month in after <==> month in before || month == YearMonth(d)
    ensures forall month :: month in after <==> exists d' :: d' in ks + [d] && YearMonth(d') == month
  {
    forall month ensures month in after <==> exists d' :: d' in ks + [d] && YearMonth(d') == month {
      if month in before {
        var d' :| d' in ks && YearMonth(d') == month;
        assert d' in ks + [d];
      }
      if month == YearMonth(d) {
        assert d in ks + [d];
      }
      if exists d' :: d' in ks + [d] && YearMonth(d') == month {
        var d' :| d' in ks + [d] && YearMonth(d') == month;
        if d' != d { assert d' in ks; }
      }
    }
  }

  /** `overall_counts`: the four sums over the values of `date_counts` */
  function Overall(byDate: Dict<Day, Counts>): (c: Counts)
    ensures forall m :: Field(c, m) == Total(byDate, m)
  {
    Counts(Total(byDate, HlsGranules), Total(byDate, Matched), Total(byDate, ToMany), Total(byDate, ToNone))
  }

  /** the grouping loop, then the counting loop, over all of `hls_to_dswx` */
  function Tabulate(r: Refs): Tallies
    requires Valid(r)
  {
    assert r.keys[..|r.keys|] == r.keys;
    GroupSpec(r, |r.keys|);
    var dates := DatesAll(r, r.keys);
    CountAll(dates, dates.keys)
  }

  /** the overall counts, and the month totals, are the tallies over every list of
    * `hls_to_dswx` */
  lemma {:induction false} OverallSpec(r: Refs)
    requires Valid(r)
    ensures forall m :: Field(Overall(Tabulate(r).byDate), m) == SumMap(r.keys, r.lists, TallyOf(m)) == Total(Tabulate(r).byMonth, m)
  {
    assert r.keys[..|r.keys|] == r.keys;
    GroupSpec(r, |r.keys|);
    var dates := DatesAll(r, r.keys);
    assert dates.keys[..|dates.keys|] == dates.keys;
    CountAllSpec(dates, |dates.keys|);
    forall m ensures Total(CountAll(dates, dates.keys).byDate, m) == SumMap(r.keys, r.lists, TallyOf(m)) {
      DateTotal(r, m);
    }
  }

  /** one count summed over `date_counts` is the count over every list */
  lemma {:induction false} DateTotal(r: Refs, m: Measure)
    requires Valid(r)
    ensures var dates := DatesAll(r, r.keys);
      forall d :: d in dates.keys ==> d in dates.vals
    ensures var dates := DatesAll(r, r.keys);
      Total(CountAll(dates, dates.keys).byDate, m) == SumMap(r.keys, r.lists, TallyOf(m))
  {
    assert r.keys[..|r.keys|] == r.keys;
    GroupSpec(r, |r.keys|);
    var dates := DatesAll(r, r.keys);
    assert dates.keys[..|dates.keys|] == dates.keys;
    CountAllSpec(dates, |dates.keys|);
    var t := CountAll(dates, dates.keys);
    forall d | d in dates.keys ensures FieldOf(m)(t.byDate.vals[d]) == GroupTallyOf(m)(dates.vals[d]) {
      DayCountsTally(dates.vals[d], m);
    }
    TotalOfValid(t.byDate, m);
    SumMapAgree(dates.keys, t.byDate.vals, FieldOf(m), dates.vals, GroupTallyOf(m));
    DatesTallyAll(r, |r.keys|, m);
  }

  /** a sum of per-key tallies, zero on the first `n` keys and one on the rest */
  lemma {:induction false} SplitTally(r: Refs, n: nat, f: seq<string> -> int)
    requires n <= |r.keys| && forall i :: 0 <= i < |r.keys| ==> r.keys[i] in r.lists && f(r.lists[r.keys[i]]) == (if i < n then 0 else 1)
    ensures SumMap(r.keys, r.lists, f) == |r.keys| - n
  {
    var a, b := r.keys[..n], r.keys[n..];
    assert r.keys == a + b;
    ConstRun(r, 0, n, f, 0);
    ConstRun(r, n, |r.keys|, f, 1);
    assert r.keys[0..n] == a && r.keys[n..|r.keys|] == b;
    SumMapAppend(a, b, r.lists, f);
  }

  /** keys `lo` to `hi` each contributing `c` */
  lemma {:induction false} ConstRun(r: Refs, lo: nat, hi: nat, f: seq<string> -> int, c: int)
    requires lo <= hi <= |r.keys|
    requires forall i :: lo <= i < hi ==> r.keys[i] in r.lists && f(r.lists[r.keys[i]]) == c
    ensures forall k :: k in r.keys[lo..hi] ==> k in r.lists
    ensures SumMap(r.keys[lo..hi], r.lists, f) == c * (hi - lo)
  {
    var s := r.keys[lo..hi];
    forall k | k in s ensures k in r.lists && f(r.lists[k]) == c {
      var i :| 0 <= i < |s| && s[i] == k;
      assert r.keys[lo + i] == k;
    }
    SumMapConst(s, r.lists, f, c);
  }

  /** in the report: `hls_granules` counts every key of `hls_to_dswx`, and
    * `hls_to_no_dswx` the keys the granule stage added, the number the script
    * logs as not mapped to a DSWx-HLS product */
  lemma {:induction false} ReportCounts(hlsOf: Namer, outs: seq<Output>, ss: seq<HlsGranule>, ls: seq<HlsGranule>)
    requires Mapping(hlsOf, outs, ss, ls).Ok?
    ensures var q := Mapping(hlsOf, outs, ss, ls).value;
      var overall := Overall(Tabulate(q).byDate);
      && overall.hls == |q.keys|
      && overall.none == |q.keys| - |MapAll(hlsOf, outs).value.keys|
  {
    var q := Mapping(hlsOf, outs, ss, ls).value;
    var n := |MapAll(hlsOf, outs).value.keys|;
    UnmappedAtEnd(hlsOf, outs, ss, ls);
    OverallSpec(q);
    assert Field(Overall(Tabulate(q).byDate), HlsGranules) == SumMap(q.keys, q.lists, TallyOf(HlsGranules));
    assert Field(Overall(Tabulate(q).byDate), ToNone) == SumMap(q.keys, q.lists, TallyOf(ToNone));
    SumMapConst(q.keys, q.lists, TallyOf(HlsGranules), 1);
    SplitTally(q, n, TallyOf(ToNone));
  }

  // ------------------------------------------ missing outputs and duplicates

  /** `missing_dswx`: the HLS identifiers of `hls_mappings` with an empty list, in order */
  function MissingAll(hm: Dict<string, seq<string>>, hs: seq<string>): seq<string>
    requires forall h :: h in hs ==> h in hm.vals
  {
    if hs == [] then []
    else
      var h := hs[|hs| - 1];
      MissingAll(hm, hs[..|hs| - 1]) + (if hm.vals[h] == [] then [h] else [])
  }

  lemma {:induction false} MissingSpec(hm: Dict<string, seq<string>>, hs: seq<string>)
    requires forall h :: h in hs ==> h in hm.vals
    ensures forall h :: h in MissingAll(hm, hs) <==> h in hs && hm.vals[h] == []
    ensures Distinct(hs) ==> Distinct(MissingAll(hm, hs))
  {
    if hs != [] {
      MissingSpec(hm, hs[..|hs| - 1]);
      assert hs == hs[..|hs| - 1] + [hs[|hs| - 1]];
    }
  }

  /** the DSWx `creation_ts` group; the pattern names it, so a match always has it */
  function CreationStamp(id: string): Option<string>
  {
    match Match(DswxHlsPattern(), id, 0)
    case None => None
    case Some(f) =>
      MatchNames(DswxHlsPattern(), id, 0);
      CreationNamed();
      Some(f["creation_ts"])
  }

  lemma {:induction false} CreationNamed()
    ensures "creation_ts" in Names(DswxHlsPattern())
  {
    var p := DswxHlsPattern();
    assert p[5] == Fixed("creation_ts", StampClasses());
    FixedNamed(p, 5);
  }

  /** what an output identifier's creation time is, if the DSWx pattern matches it;
    * the loop takes it as a parameter, `CreationStamp` is the script's own */
  type Stamper = string -> Option<string>

  /** the sort key: the creation time (only ever applied where it is defined) */
  function StampKey(stampOf: Stamper): string -> string
  {
    id => if stampOf(id).Some? then stampOf(id).value else ""
  }

  /** the first identifier of `l` the DSWx pattern does not match: computing the
    * sort keys raises on it */
  function FirstUnstamped(stampOf: Stamper, l: seq<string>): (r: Option<string>)
    ensures r.Some? ==> r.value in l && stampOf(r.value).None?
    ensures r.None? <==> forall id :: id in l ==> stampOf(id).Some?
  {
    if l == [] then None
    else if stampOf(l[0]).None? then Some(l[0])
    else
      assert forall id :: id in l ==> id == l[0] || id in l[1..];
      FirstUnstamped(stampOf, l[1..])
  }

  /** `product_list.sort(key=creation_ts, reverse=True)` then `product_list[1:]` */
  function Superseded(stampOf: Stamper, l: seq<string>): seq<string>
    requires l != []
  {
    SortBy(l, StampKey(stampOf), true)[1..]
  }

  /** the loop over the non-empty lists of `hls_mappings`, in order */
  function DupsAll(stampOf: Stamper, hm: Dict<string, seq<string>>, hs: seq<string>): Result<seq<string>, Failure>
    requires forall h :: h in hs ==> h in hm.vals
  {
    if hs == [] then Ok([])
    else DupsPass(stampOf, DupsAll(stampOf, hm, hs[..|hs| - 1]), hm.vals[hs[|hs| - 1]])
  }

  /** one pass of the duplicates loop, over the list `l` */
  function DupsPass(stampOf: Stamper, r: Result<seq<string>, Failure>, l: seq<string>): Result<seq<string>, Failure>
  {
    match r
    case Err(e) => Err(e)
    case Ok(acc) =>
      if l == [] then Ok(acc)
      else match FirstUnstamped(stampOf, l)
        case Some(id) => Err(NotDswx(id))
        case None => Ok(acc + Superseded(stampOf, l))
  }

  /** `missing_dswx`, the trimmed `hls_mappings` and the duplicates loop */
  method MissingAndDuplicates(stampOf: Stamper, hm: Dict<string, seq<string>>)
    returns (missing: seq<string>, dups: Result<seq<string>, Failure>)
    requires DictValid(hm)
    ensures missing == MissingAll(hm, hm.keys)
    ensures dups == DupsAll(stampOf, hm, hm.keys)
  {
    missing := MissingLoop(hm);
    dups := DuplicatesLoop(stampOf, hm);
  }

  /** the loop collecting `missing_dswx` */
  method MissingLoop(hm: Dict<string, seq<string>>) returns (missing: seq<string>)
    requires DictValid(hm)
    ensures missing == MissingAll(hm, hm.keys)
  {
    missing := [];
    for i := 0 to |hm.keys|
      invariant missing == MissingAll(hm, hm.keys[..i])
    {
      assert hm.keys[..i + 1][..i] == hm.keys[..i];
      var h := hm.keys[i];
      if hm.vals[h] == [] {
        missing := missing + [h];
      }
    }
    assert hm.keys[..|hm.keys|] == hm.keys;
  }

  /** the loop collecting the superseded outputs */
  method DuplicatesLoop(stampOf: Stamper, hm: Dict<string, seq<string>>) returns (dups: Result<seq<string>, Failure>)
    requires DictValid(hm)
    ensures dups == DupsAll(stampOf, hm, hm.keys)
  {
    var acc: seq<string> := [];
    for i := 0 to |hm.keys|
      invariant DupsAll(stampOf, hm, hm.keys[..i]) == Ok(acc)
    {
      var l := hm.vals[hm.keys[i]];
      assert DupsAll(stampOf, hm, hm.keys[..i + 1]) == DupsPass(stampOf, Ok(acc), l) by {
        assert hm.keys[..i + 1][..i] == hm.keys[..i];
      }
      if l != [] {
        var bad := FirstUnstamped(stampOf, l);
        if bad.Some? {
          DupsSticks(stampOf, hm, hm.keys, i + 1);
          return Err(NotDswx(bad.value));
        }
        var sorted := SortBy(l, StampKey(stampOf), true);
        acc := acc + sorted[1..];
      }
    }
    assert hm.keys[..|hm.keys|] == hm.keys;
    dups := Ok(acc);
  }

  lemma {:induction false} DupsSticks(stampOf: Stamper, hm: Dict<string, seq<string>>, hs: seq<string>, i: nat)
    requires forall h :: h in hs ==> h in hm.vals
    requires i <= |hs| && DupsAll(stampOf, hm, hs[..i]).Err?
    ensures DupsAll(stampOf, hm, hs) == DupsAll(stampOf, hm, hs[..i])
    decreases |hs| - i
  {
    if i < |hs| {
      assert hs[..i + 1][..i] == hs[..i];
      DupsSticks(stampOf, hm, hs, i + 1);
    } else {
      assert hs[..i] == hs;
    }
  }

  /** the output kept for an HLS granule is the first of its outputs with the latest
    * creation time; the others are superseded, none created later */
  lemma {:induction false} SupersededSpec(stampOf: Stamper, l: seq<string>)
    requires l != [] && FirstUnstamped(stampOf, l).None?
    ensures var key := StampKey(stampOf);
      var newest := l[FirstMaxIndex(l, key)];
      var sup := Superseded(stampOf, l);
      && SortBy(l, key, true) == [newest] + sup
      && multiset(l) == multiset{newest} + multiset(sup)
      && (forall y :: y in l ==> LexLe(stampOf(y).value, stampOf(newest).value))
      && (forall i :: 0 <= i < FirstMaxIndex(l, key) ==> LexLt(stampOf(l[i]).value, stampOf(newest).value))
  {
    var key := StampKey(stampOf);
    var sorted := SortBy(l, key, true);
    var newest, sup := l[FirstMaxIndex(l, key)], Superseded(stampOf, l);
    assert sorted == [newest] + sup by {
      SortDescFirst(l, key);
      assert sorted == [sorted[0]] + sorted[1..];
    }
    assert multiset(l) == multiset{newest} + multiset(sup) by {
      assert multiset(sorted) == multiset(l);
      assert multiset([newest] + sup) == multiset{newest} + multiset(sup);
    }
    NewestBounds(stampOf, l);
  }

  lemma {:induction false} NewestBounds(stampOf: Stamper, l: seq<string>)
    requires l != [] && FirstUnstamped(stampOf, l).None?
    ensures var newest := l[FirstMaxIndex(l, StampKey(stampOf))];
      && (forall y :: y in l ==> LexLe(stampOf(y).value, stampOf(newest).value))
      && (forall i :: 0 <= i < FirstMaxIndex(l, StampKey(stampOf)) ==> LexLt(stampOf(l[i]).value, stampOf(newest).value))
  {
    var key := StampKey(stampOf);
    FirstMaxIndexSpec(l, key);
    forall y | y in l ensures LexLe(stampOf(y).value, stampOf(l[FirstMaxIndex(l, key)]).value) {
      var i :| 0 <= i < |l| && l[i] == y;
      assert key(l[i]) == stampOf(y).value;
    }
  }

  /** the duplicates loop raises exactly when a non-empty list holds an identifier the
    * DSWx pattern does not match, and names such an identifier */
  lemma {:induction false} DupsFails(stampOf: Stamper, hm: Dict<string, seq<string>>, hs: seq<string>)
    requires forall h :: h in hs ==> h in hm.vals
    ensures DupsAll(stampOf, hm, hs).Err? <==> exists h, id :: h in hs && id in hm.vals[h] && stampOf(id).None?
    ensures DupsAll(stampOf, hm, hs).Err? ==>
      exists h :: h in hs && match DupsAll(stampOf, hm, hs).error
        case NotDswx(id) => id in hm.vals[h] && stampOf(id).None?
        case NoInputs(_) => false
  {
    if hs != [] {
      var init := hs[..|hs| - 1];
      var h := hs[|hs| - 1];
      DupsFails(stampOf, hm, init);
      assert forall x :: x in hs <==> x in init || x == h;
    }
  }

  /** without an error, the duplicates are the superseded outputs of each granule, in
    * `hls_mappings` order */
  ghost function AllSuperseded(stampOf: Stamper, hm: Dict<string, seq<string>>, hs: seq<string>): seq<string>
    requires forall h :: h in hs ==> h in hm.vals
  {
    if hs == [] then []
    else
      var l := hm.vals[hs[|hs| - 1]];
      AllSuperseded(stampOf, hm, hs[..|hs| - 1]) + (if l == [] then [] else Superseded(stampOf, l))
  }

  /** each non-empty list of `n` outputs contributes `n - 1` duplicates */
  lemma {:induction false} DupsSpec(stampOf: Stamper, hm: Dict<string, seq<string>>, hs: seq<string>)
    requires forall h :: h in hs ==> h in hm.vals
    requires DupsAll(stampOf, hm, hs).Ok?
    ensures DupsAll(stampOf, hm, hs).value == AllSuperseded(stampOf, hm, hs)
    ensures |DupsAll(stampOf, hm, hs).value| == SumMap(hs, hm.vals, (l: seq<string>) => if l == [] then 0 else |l| - 1)
  {
    if hs != [] {
      DupsSpec(stampOf, hm, hs[..|hs| - 1]);
    }
  }

  // ------------------------------------------------------ the report itself

  /** the identifiers of `hs` whose list does not hold exactly one output */
  function NotOneToOne(g: Group, hs: seq<string>): seq<string>
    requires forall h :: h in hs ==> h in g.vals
  {
    if hs == [] then []
    else
      var h := hs[|hs| - 1];
      NotOneToOne(g, hs[..|hs| - 1]) + (if |g.vals[h]| != 1 then [h] else [])
  }

  /** `{k: v for k, v in date_map[date].items() if len(v) != 1}` */
  function KeepNotOneToOne(g: Group): Group
    requires DictValid(g)
  {
    Dict(NotOneToOne(g, g.keys), map h | h in g.vals && |g.vals[h]| != 1 :: g.vals[h])
  }

  lemma {:induction false} NotOneToOneSpec(g: Group, hs: seq<string>)
    requires forall h :: h in hs ==> h in g.vals
    ensures forall h :: h in NotOneToOne(g, hs) <==> h in hs && |g.vals[h]| != 1
    ensures Distinct(hs) ==> Distinct(NotOneToOne(g, hs))
  {
    if hs != [] {
      NotOneToOneSpec(g, hs[..|hs| - 1]);
      assert hs == hs[..|hs| - 1] + [hs[|hs| - 1]];
    }
  }

  /** without `--full-report`, each date keeps only the granules whose list does not
    * hold exactly one output */
  function Trim(dates: Dict<Day, Group>, full: bool): Dict<Day, Group>
    requires DatesValid(dates)
  {
    if full then dates else Dict(dates.keys, map d | d in dates.vals :: KeepNotOneToOne(dates.vals[d]))
  }

  method TrimReport(dates: Dict<Day, Group>, full: bool) returns (trimmed: Dict<Day, Group>)
    requires DatesValid(dates)
    ensures trimmed == Trim(dates, full)
  {
    trimmed := dates;
    if !full {
      var vals := dates.vals;
      for i := 0 to |dates.keys|
        invariant vals.Keys == dates.vals.Keys
        invariant forall d :: d in vals ==> vals[d] == if d in dates.keys[..i] then KeepNotOneToOne(dates.vals[d]) else dates.vals[d]
      {
        var d := dates.keys[i];
        vals := vals[d := KeepNotOneToOne(dates.vals[d])];
      }
      assert dates.keys[..|dates.keys|] == dates.keys;
      trimmed := Dict(dates.keys, vals);
    }
  }

  /** the trimmed report lists the same dates; under each, a granule stays exactly
    * when the report is full or its list does not hold exactly one output, and its
    * list is unchanged */
  lemma {:induction false} TrimSpec(dates: Dict<Day, Group>, full: bool)
    requires DatesValid(dates)
    ensures var t := Trim(dates, full);
      && DatesValid(t) && t.keys == dates.keys
      && forall d, h :: d in t.vals ==>
           && (h in t.vals[d].vals <==> h in dates.vals[d].vals && (full || |dates.vals[d].vals[h]| != 1))
           && (h in t.vals[d].vals ==> t.vals[d].vals[h] == dates.vals[d].vals[h])
  {
    forall d | d in dates.vals { NotOneToOneSpec(dates.vals[d], dates.vals[d].keys); }
  }

  /** the facet date strings of the days, in order */
  function Facets(days: seq<Day>): (r: seq<string>)
    ensures |r| == |days|
  {
    if days == [] then [] else Facets(days[..|days| - 1]) + [FacetDate(days[|days| - 1])]
  }

  lemma {:induction false} FacetsSpec(days: seq<Day>)
    ensures forall x :: x in Facets(days) <==> exists d :: d in days && x == FacetDate(d)
  {
    if days != [] {
      var init, last := days[..|days| - 1], days[|days| - 1];
      assert days == init + [last];
      FacetsSpec(init);
      assert Facets(days) == Facets(init) + [FacetDate(last)];
      forall x ensures x in Facets(days) <==> exists d :: d in days && x == FacetDate(d) {
        if x in Facets(init) {
          var d :| d in init && x == FacetDate(d);
          assert d in days;
        }
        if exists d :: d in days && x == FacetDate(d) {
          var d :| d in days && x == FacetDate(d);
          if d != last { assert d in init; }
        }
      }
    }
  }

  /** `sorted(date_counts.keys())` */
  function SortedFacets(days: seq<Day>): (r: seq<string>)
    ensures |r| == |days|
    ensures forall x :: x in r <==> exists d :: d in days && x == FacetDate(d)
  {
    FacetsSpec(days);
    var sorted := Sort(Facets(days));
    assert forall x :: x in sorted <==> x in multiset(sorted);
    assert forall x :: x in Facets(days) <==> x in multiset(Facets(days));
    sorted
  }

  /** the plot name with `--plot-days`: the first and the last day of the sorted
    * facet dates, or the one day when they agree */
  function PlotName(days: seq<Day>): string
    requires days != []
  {
    var sorted := SortedFacets(days);
    PlotNameOf(DayText(sorted[0]), DayText(sorted[|sorted| - 1]))
  }

  /** the name for a first and a last day */
  function PlotNameOf(first: string, last: string): string
  {
    if first != last then "dswx_hls_accountability_" + first + "_to_" + last + ".png"
    else "dswx_hls_accountability_" + first + ".png"
  }

  /** the plot name shows the earliest and the latest day of the report, which are
    * days of the report, and a report of one day gets the one-day name */
  lemma {:induction false} PlotNameSpec(days: seq<Day>)
    requires days != []
    ensures exists d, e :: (d in days && e in days && PlotName(days) == PlotNameOf(IsoDate(d), IsoDate(e))
      && forall x :: x in days ==> LexLe(IsoDate(d), IsoDate(x)) && LexLe(IsoDate(x), IsoDate(e)))
    ensures forall d :: (forall e :: e in days ==> e == d) ==> PlotName(days) == "dswx_hls_accountability_" + IsoDate(d) + ".png"
  {
    var d, e := PlotDays(days);
    forall d' | forall e' :: e' in days ==> e' == d'
      ensures PlotName(days) == "dswx_hls_accountability_" + IsoDate(d') + ".png"
    {
      assert d == d' && e == d';
    }
  }

  /** the days of the first and the last facet date: the earliest and the latest */
  lemma {:induction false} PlotDays(days: seq<Day>) returns (d: Day, e: Day)
    requires days != []
    ensures d in days && e in days && PlotName(days) == PlotNameOf(IsoDate(d), IsoDate(e))
    ensures forall x :: x in days ==> LexLe(IsoDate(d), IsoDate(x)) && LexLe(IsoDate(x), IsoDate(e))
  {
    var sorted := SortedFacets(days);
    SortSorted(Facets(days));
    assert sorted[0] in sorted && sorted[|sorted| - 1] in sorted;
    d :| d in days && sorted[0] == FacetDate(d);
    e :| e in days && sorted[|sorted| - 1] == FacetDate(e);
    FacetDay(d);
    FacetDay(e);
    SortedEnds(sorted);
    forall x | x in days ensures LexLe(IsoDate(d), IsoDate(x)) && LexLe(IsoDate(x), IsoDate(e)) {
      assert FacetDate(x) in sorted;
      FacetOrder(d, x);
      FacetOrder(x, e);
    }
  }

  /** a sorted list begins with its least and ends with its greatest text */
  lemma {:induction false} SortedEnds(s: seq<string>)
    requires Sorted(s) && s != []
    ensures forall y :: y in s ==> LexLe(s[0], y) && LexLe(y, s[|s| - 1])
  {
    forall y | y in s ensures LexLe(s[0], y) && LexLe(y, s[|s| - 1]) {
      var k :| 0 <= k < |s| && s[k] == y;
    }
  }

  /** facet dates compare as their calendar days' ISO texts */
  lemma {:induction false} FacetOrder(d: Day, x: Day)
    requires LexLe(FacetDate(d), FacetDate(x))
    ensures LexLe(IsoDate(d), IsoDate(x))
  {
    var u := " / " + Calendar.Digits(d.year, 4) + "-" + Calendar.Digits(DayOfYear(d), 3);
    var v := " / " + Calendar.Digits(x.year, 4) + "-" + Calendar.Digits(DayOfYear(x), 3);
    Regroup(IsoDate(d), " / ", Calendar.Digits(d.year, 4), "-", Calendar.Digits(DayOfYear(d), 3));
    Regroup(IsoDate(x), " / ", Calendar.Digits(x.year, 4), "-", Calendar.Digits(DayOfYear(x), 3));
    LexLeHeads(IsoDate(d), u, IsoDate(x), v);
  }

  lemma {:induction false} Regroup(a: string, b: string, c: string, d: string, e: string)
    ensures a + b + c + d + e == a + (b + c + d + e)
  {
  }

  /** texts of equal length compare as any texts they begin */
  lemma {:induction false} LexLeHeads(a: string, u: string, b: string, v: string)
    requires |a| == |b| && LexLe(a + u, b + v)
    ensures LexLe(a, b)
  {
    if a != [] {
      assert (a + u)[0] == a[0] && (b + v)[0] == b[0];
      if a[0] == b[0] {
        assert (a + u)[1..] == a[1..] + u && (b + v)[1..] == b[1..] + v;
        LexLeHeads(a[1..], u, b[1..], v);
        assert a == [a[0]] + a[1..] && b == [b[0]] + b[1..];
      }
    }
  }

}
