/** The opera-audit accountability reconciler for DSWx-HLS: every output
  * lists the HLS files it was made from; each name is reduced to its HLS
  * granule identifier and mapped to the outputs that name it, Landsat-9
  * granules acquired before the configured cutoff are dropped, and the HLS
  * granules no output names are reported missing. */
module Accountability {
  import opened Base
  import opened Calendar
  import opened Identifiers

  // ------------------------------------------------------------- records

  /** a DSWx-HLS granule: `GranuleUR` and `InputGranules` (absent = empty) */
  datatype DswxGranule = DswxGranule(id: string, inputs: seq<string>)

  /** an HLS granule: `GranuleUR`, `BeginningDateTime` and the `ShortName`s of its platforms */
  datatype HlsGranule = HlsGranule(id: string, begin: string, platforms: seq<string>)

  /** the exceptions the analysis raises */
  datatype Failure =
    | BadCutoff              // `fromisoformat` rejects the configured cutoff (ValueError)
    | BadTime(id: string)    // `fromisoformat` rejects an acquisition time (ValueError)
    | NaiveTime(id: string)  // a Landsat-9 time without offset compared with the aware cutoff (TypeError)

  /** the returned dict; its `by_date` is always empty and is left out */
  datatype Summary = Summary(expected: int, actual: int, missing: seq<string>, missingCount: int)

  // --------------------------------------------------- the Landsat-9 rule

  /** the acquisition time, with `Z` spelled `+00:00` */
  function Acquired(g: HlsGranule): Option<Stamp> { ParseIso(ReplaceAll(g.begin, 'Z', "+00:00")) }

  /** `_parse_l9_cutoff`: the configured time without its `Z`, its wall clock
    * read as UTC (any offset it had is replaced), in microseconds */
  function CutoffOf(text: string): (r: Option<int>)
    ensures r.Some? <==> ParseIso(RemoveChar(text, 'Z')).Some?
  {
    match ParseIso(RemoveChar(text, 'Z'))
    case None => None
    case Some(t) => Some(Micros(t.local))
  }

  /** whether the filter loop skips the granule: `'LANDSAT-9' in platforms and acq_time < L9_CUTOFF` */
  function Dropped(g: HlsGranule, cutoff: int): Result<bool, Failure>
  {
    match Acquired(g)
    case None => Err(BadTime(g.id))
    case Some(t) =>
      if "LANDSAT-9" !in g.platforms then Ok(false)
      else if t.offset.None? then Err(NaiveTime(g.id))
      else Ok(Instant(t) < cutoff)
  }

  // ------------------------------------------------ the input-output map

  /** `hls_to_dswx`: a dict of lists, with its keys in insertion order */
  datatype Refs = Refs(keys: seq<string>, outputs: map<string, seq<string>>)

  ghost predicate Valid(r: Refs)
  {
    Distinct(r.keys) && forall k :: k in r.outputs <==> k in r.keys
  }

  /** every key is referenced by some output */
  ghost predicate Referencing(r: Refs)
  {
    forall k :: k in r.outputs ==> r.outputs[k] != []
  }

  /** `hls_to_dswx[name].append(gid)` */
  function Append(r: Refs, name: string, gid: string): Refs
  {
    if name in r.outputs then Refs(r.keys, r.outputs[name := r.outputs[name] + [gid]])
    else Refs(r.keys + [name], r.outputs[name := [gid]])
  }

  /** `if gid not in hls_to_dswx: hls_to_dswx[gid] = []` */
  function Touch(r: Refs, gid: string): Refs
  {
    if gid in r.outputs then r else Refs(r.keys + [gid], r.outputs[gid := []])
  }

  /** the inner loop over one output's input files */
  function AddInputs(isHls: string -> bool, r: Refs, gid: string, inputs: seq<string>): Refs
  {
    if inputs == [] then r
    else
      var q := AddInputs(isHls, r, gid, inputs[..|inputs| - 1]);
      var name := Normalize(inputs[|inputs| - 1]);
      if isHls(name) then Append(q, name, gid) else q
  }

  /** the loop over the outputs */
  function MapOutputs(isHls: string -> bool, outs: seq<DswxGranule>): Refs
  {
    if outs == [] then Refs([], map[])
    else
      var o := outs[|outs| - 1];
      AddInputs(isHls, MapOutputs(isHls, outs[..|outs| - 1]), o.id, o.inputs)
  }

  // ------------------------------------------------------- the HLS loop

  /** `filtered_hls` and `hls_to_dswx` during the loop over the HLS granules */
  datatype Pass = Pass(filtered: seq<string>, refs: Refs)

  /** a decision for each HLS granule: skip it, keep it, or raise */
  type Verdicts = HlsGranule -> Result<bool, Failure>

  /** the filter decision for each granule, at a given cutoff */
  function Verdict(cutoff: int): Verdicts
  {
    g => Dropped(g, cutoff)
  }

  function Step(drop: Verdicts, s: Pass, g: HlsGranule): Result<Pass, Failure>
  {
    match drop(g)
    case Err(e) => Err(e)
    case Ok(drop) => if drop then Ok(s) else Ok(Pass(s.filtered + [g.id], Touch(s.refs, g.id)))
  }

  function Filter(drop: Verdicts, r: Refs, hls: seq<HlsGranule>): Result<Pass, Failure>
  {
    if hls == [] then Ok(Pass([], r))
    else match Filter(drop, r, hls[..|hls| - 1])
      case Err(e) => Err(e)
      case Ok(s) => Step(drop, s, hls[|hls| - 1])
  }

  /** the keys with an empty list, in dict order */
  function EmptyKeys(keys: seq<string>, outputs: map<string, seq<string>>): seq<string>
  {
    if keys == [] then []
    else
      var k := keys[|keys| - 1];
      EmptyKeys(keys[..|keys| - 1], outputs) + (if k in outputs && outputs[k] == [] then [k] else [])
  }

  /** the rest of `analyze_accountability`, once the cutoff is known */
  function Reconcile(isHls: string -> bool, drop: Verdicts, outs: seq<DswxGranule>, hls: seq<HlsGranule>): Result<Summary, Failure>
  {
    match Filter(drop, MapOutputs(isHls, outs), hls)
    case Err(e) => Err(e)
    case Ok(p) => Ok(SummaryOf(p))
  }

  /** the report once the HLS loop is done: the granules kept, those some
    * output refers to, and the sorted rest */
  function SummaryOf(p: Pass): Summary
  {
    var missing := EmptyKeys(p.refs.keys, p.refs.outputs);
    Summary(|p.filtered|, |p.filtered| - |missing|, Sort(missing), |missing|)
  }

  /** `analyze_accountability` with the configured pattern and cutoff text */
  function Analyze(isHls: string -> bool, cutoffText: string, outs: seq<DswxGranule>, hls: seq<HlsGranule>): Result<Summary, Failure>
  {
    match CutoffOf(cutoffText)
    case None => Err(BadCutoff)
    case Some(c) => Reconcile(isHls, Verdict(c), outs, hls)
  }

  // ---------------------------------------------------------- the methods

  /** the loop over the outputs, filling the map */
  method MapInputs(isHls: string -> bool, outs: seq<DswxGranule>) returns (r: Refs)
    ensures r == MapOutputs(isHls, outs)
  {
    r := Refs([], map[]);
    for i := 0 to |outs|
      invariant r == MapOutputs(isHls, outs[..i])
    {
      assert outs[..i + 1][..i] == outs[..i];
      r := AddAll(isHls, r, outs[i].id, outs[i].inputs);
    }
    assert outs[..|outs|] == outs;
  }

  /** the loop over one output's inputs */
  method AddAll(isHls: string -> bool, r0: Refs, gid: string, inputs: seq<string>) returns (r: Refs)
    ensures r == AddInputs(isHls, r0, gid, inputs)
  {
    r := r0;
    for j := 0 to |inputs|
      invariant r == AddInputs(isHls, r0, gid, inputs[..j])
    {
      assert inputs[..j + 1][..j] == inputs[..j];
      var name := Normalize(inputs[j]);
      if isHls(name) {
        r := Append(r, name, gid);
      }
    }
    assert inputs[..|inputs|] == inputs;
  }

  lemma {:induction false} FilterFailureSticks(drop: Verdicts, r: Refs, hls: seq<HlsGranule>, i: nat)
    requires i <= |hls| && Filter(drop, r, hls[..i]).Err?
    ensures Filter(drop, r, hls) == Filter(drop, r, hls[..i])
    decreases |hls| - i
  {
    if i < |hls| {
      assert hls[..i + 1][..i] == hls[..i];
      FilterFailureSticks(drop, r, hls, i + 1);
    } else {
      assert hls[..i] == hls;
    }
  }

  /** the loop over the HLS granules */
  method FilterHls(drop: Verdicts, refs: Refs, hls: seq<HlsGranule>) returns (r: Result<Pass, Failure>)
    ensures r == Filter(drop, refs, hls)
  {
    var filtered: seq<string> := [];
    var m := refs;
    for i := 0 to |hls|
      invariant Filter(drop, refs, hls[..i]) == Ok(Pass(filtered, m))
    {
      var g := hls[i];
      assert hls[..i + 1][..i] == hls[..i];
      var verdict := drop(g);
      if verdict.Err? {
        FilterFailureSticks(drop, refs, hls, i + 1);
        return Err(verdict.error);
      }
      if !verdict.value {
        filtered := filtered + [g.id];
        if g.id !in m.outputs {
          m := Refs(m.keys + [g.id], m.outputs[g.id := []]);
        }
      }
    }
    assert hls[..|hls|] == hls;
    r := Ok(Pass(filtered, m));
  }

  /** the two loops and the report, once the cutoff is known */
  method ReconcileAll(isHls: string -> bool, drop: Verdicts, outs: seq<DswxGranule>, hls: seq<HlsGranule>) returns (r: Result<Summary, Failure>)
    ensures r == Reconcile(isHls, drop, outs, hls)
  {
    var refs := MapInputs(isHls, outs);
    var pass := FilterHls(drop, refs, hls);
    if pass.Err? {
      return Err(pass.error);
    }
    r := Ok(SummaryOf(pass.value));
  }

  /** the configuration and the module global `L9_CUTOFF` that caches its parsed cutoff */
  class Accountant {
    const isHls: string -> bool
    const cutoffText: string
    var cutoff: Option<int>

    /** the cache holds nothing or the parsed configuration */
    ghost predicate Cached()
      reads this
    {
      cutoff.Some? ==> cutoff == CutoffOf(cutoffText)
    }

    constructor(isHls: string -> bool, cutoffText: string)
      ensures this.isHls == isHls && this.cutoffText == cutoffText && cutoff == None
      ensures Cached()
    {
      this.isHls := isHls;
      this.cutoffText := cutoffText;
      cutoff := None;
    }

    /** `_parse_l9_cutoff`: sets the global, or raises and leaves it alone */
    method ParseCutoff() returns (ok: bool)
      modifies this
      ensures ok <==> CutoffOf(cutoffText).Some?
      ensures cutoff == if ok then CutoffOf(cutoffText) else old(cutoff)
    {
      var t := ParseIso(RemoveChar(cutoffText, 'Z'));
      if t.None? {
        return false;
      }
      cutoff := Some(Micros(t.value.local));
      ok := true;
    }

    /** `analyze_accountability`: parses the cutoff on the first call only */
    method AnalyzeAccountability(outs: seq<DswxGranule>, hls: seq<HlsGranule>) returns (r: Result<Summary, Failure>)
      requires Cached()
      modifies this
      ensures Cached() && cutoff == CutoffOf(cutoffText)
      ensures r == Analyze(isHls, cutoffText, outs, hls)
    {
      if cutoff.None? {
        var ok := ParseCutoff();
        if !ok {
          return Err(BadCutoff);
        }
      }
      r := ReconcileAll(isHls, Verdict(cutoff.value), outs, hls);
    }
  }

  // ------------------------------------------------ what the report means

  /** some output lists a file that normalises to the HLS name `x` */
  ghost predicate Referenced(isHls: string -> bool, outs: seq<DswxGranule>, x: string)
  {
    isHls(x) && exists o, i :: o in outs && i in o.inputs && Normalize(i) == x
  }

  /** the identifiers the HLS loop keeps, in order and with repeats (`[g.id for g in hls if not dropped]`) */
  function Expected(drop: Verdicts, hls: seq<HlsGranule>): seq<string>
  {
    if hls == [] then []
    else (if drop(hls[0]) == Ok(false) then [hls[0].id] else []) + Expected(drop, hls[1..])
  }

  /** the HLS names among one output's files, in order */
  function HlsNames(isHls: string -> bool, inputs: seq<string>): seq<string>
  {
    if inputs == [] then []
    else
      var name := Normalize(inputs[|inputs| - 1]);
      HlsNames(isHls, inputs[..|inputs| - 1]) + (if isHls(name) then [name] else [])
  }

  lemma {:induction false} HlsNamesAre(isHls: string -> bool, inputs: seq<string>)
    ensures forall x :: x in HlsNames(isHls, inputs) <==> isHls(x) && exists i :: i in inputs && Normalize(i) == x
  {
    if inputs != [] {
      var init := inputs[..|inputs| - 1];
      var last := inputs[|inputs| - 1];
      HlsNamesAre(isHls, init);
      forall x ensures x in HlsNames(isHls, inputs) <==> isHls(x) && exists i :: i in inputs && Normalize(i) == x {
        if isHls(x) && exists i :: i in inputs && Normalize(i) == x {
          var i :| i in inputs && Normalize(i) == x;
          if i != last {
            assert i in init;
          }
        }
        if x in HlsNames(isHls, init) {
          var i :| i in init && Normalize(i) == x;
          assert i in inputs;
        }
      }
    }
  }

  lemma {:induction false} AppendKeys(r: Refs, name: string, gid: string)
    requires Valid(r) && Referencing(r)
    ensures var q := Append(r, name, gid);
      && Valid(q) && Referencing(q)
      && (forall k :: k in q.outputs <==> k in r.outputs || k == name)
  {}

  lemma {:induction false} AddInputsKeys(isHls: string -> bool, r: Refs, gid: string, inputs: seq<string>)
    requires Valid(r) && Referencing(r)
    ensures var q := AddInputs(isHls, r, gid, inputs);
      && Valid(q) && Referencing(q)
      && (forall k :: k in q.outputs <==> k in r.outputs || k in HlsNames(isHls, inputs))
  {
    if inputs != [] {
      var init := inputs[..|inputs| - 1];
      var name := Normalize(inputs[|inputs| - 1]);
      AddInputsKeys(isHls, r, gid, init);
      if isHls(name) {
        AppendKeys(AddInputs(isHls, r, gid, init), name, gid);
      }
    }
  }

  /** the map built from the outputs has exactly the referenced HLS names as
    * keys, each with at least one output */
  lemma {:induction false} MapOutputsKeys(isHls: string -> bool, outs: seq<DswxGranule>)
    ensures Valid(MapOutputs(isHls, outs)) && Referencing(MapOutputs(isHls, outs))
    ensures forall x :: x in MapOutputs(isHls, outs).outputs <==> Referenced(isHls, outs, x)
  {
    if outs != [] {
      var init := outs[..|outs| - 1];
      var o := outs[|outs| - 1];
      MapOutputsKeys(isHls, init);
      AddInputsKeys(isHls, MapOutputs(isHls, init), o.id, o.inputs);
      HlsNamesAre(isHls, o.inputs);
      forall x ensures x in MapOutputs(isHls, outs).outputs <==> Referenced(isHls, outs, x) {
        if Referenced(isHls, outs, x) {
          var p, i :| p in outs && i in p.inputs && Normalize(i) == x;
          if p != o {
            assert p in init;
            assert Referenced(isHls, init, x);
          }
        }
        if Referenced(isHls, init, x) {
          var p, i :| p in init && i in p.inputs && Normalize(i) == x;
          assert p in outs;
        }
      }
    }
  }

  /** the HLS loop adds exactly the kept identifiers it has not seen, each with an empty list */
  lemma {:induction false} FilterRefs(drop: Verdicts, r: Refs, hls: seq<HlsGranule>)
    requires Valid(r) && Filter(drop, r, hls).Ok?
    ensures var p := Filter(drop, r, hls).value;
      && Valid(p.refs)
      && p.filtered == Expected(drop, hls)
      && (forall k :: k in p.refs.outputs <==> k in r.outputs || k in p.filtered)
      && (forall k :: k in r.outputs ==> p.refs.outputs[k] == r.outputs[k])
      && (forall k :: k in p.refs.outputs && k !in r.outputs ==> p.refs.outputs[k] == [])
  {
    if hls != [] {
      var init := hls[..|hls| - 1];
      var g := hls[|hls| - 1];
      FilterRefs(drop, r, init);
      ExpectedSnoc(drop, init, g);
      assert hls == init + [g];
    }
  }

  lemma {:induction false} ExpectedSnoc(drop: Verdicts, hls: seq<HlsGranule>, g: HlsGranule)
    ensures Expected(drop, hls + [g]) == Expected(drop, hls) + (if drop(g) == Ok(false) then [g.id] else [])
  {
    if hls == [] {
      assert [g][1..] == [];
    } else {
      assert (hls + [g])[1..] == hls[1..] + [g];
      ExpectedSnoc(drop, hls[1..], g);
    }
  }

  /** the HLS loop completes iff no acquisition time fails */
  lemma {:induction false} FilterSucceeds(drop: Verdicts, r: Refs, hls: seq<HlsGranule>)
    ensures Filter(drop, r, hls).Ok? <==> forall i :: 0 <= i < |hls| ==> drop(hls[i]).Ok?
  {
    if hls != [] {
      var init := hls[..|hls| - 1];
      FilterSucceeds(drop, r, init);
      assert forall i :: 0 <= i < |init| ==> init[i] == hls[i];
    }
  }

  lemma {:induction false} EmptyKeysAre(keys: seq<string>, outputs: map<string, seq<string>>)
    requires Distinct(keys)
    ensures Distinct(EmptyKeys(keys, outputs))
    ensures forall x :: x in EmptyKeys(keys, outputs) <==> x in keys && x in outputs && outputs[x] == []
  {
    if keys != [] {
      var init := keys[..|keys| - 1];
      EmptyKeysAre(init, outputs);
      assert keys == init + [keys[|keys| - 1]];
    }
  }

  /** an HLS granule is missing iff the HLS loop kept it and no output names it;
    * `missing` is sorted without repeats, and `expected == actual + missing_count` */
  lemma {:induction false} MissingMeans(isHls: string -> bool, drop: Verdicts, outs: seq<DswxGranule>, hls: seq<HlsGranule>)
    requires Reconcile(isHls, drop, outs, hls).Ok?
    ensures var s := Reconcile(isHls, drop, outs, hls).value;
      && s.expected == |Expected(drop, hls)|
      && s.expected == s.actual + s.missingCount
      && s.missingCount == |s.missing|
      && StrictlySorted(s.missing)
      && (forall x :: x in s.missing <==> x in Expected(drop, hls) && !Referenced(isHls, outs, x))
  {
    var r0 := MapOutputs(isHls, outs);
    var p := Filter(drop, r0, hls).value;
    MapOutputsKeys(isHls, outs);
    FilterRefs(drop, r0, hls);
    var e := EmptyKeys(p.refs.keys, p.refs.outputs);
    EmptyKeysAre(p.refs.keys, p.refs.outputs);
    var m := Sort(e);
    assert forall x :: x in m <==> x in e by {
      forall x ensures x in m <==> x in e { assert x in multiset(m) <==> x in multiset(e); }
    }
    DistinctPermutation(e, m);
    SortSorted(e);
    SortedDistinct(m);
  }

  /** `actual` is never negative: every missing granule is one the HLS loop kept */
  lemma {:induction false} MissingBound(isHls: string -> bool, drop: Verdicts, outs: seq<DswxGranule>, hls: seq<HlsGranule>)
    requires Reconcile(isHls, drop, outs, hls).Ok?
    ensures 0 <= Reconcile(isHls, drop, outs, hls).value.actual
    ensures Reconcile(isHls, drop, outs, hls).value.missingCount <= |SortedSet(Expected(drop, hls))|
  {
    var s := Reconcile(isHls, drop, outs, hls).value;
    MissingMeans(isHls, drop, outs, hls);
    var distinct := SortedSet(Expected(drop, hls));
    forall i, j | 0 <= i < j < |s.missing| ensures s.missing[i] != s.missing[j] {
      StrictlySortedDistinct(s.missing, i, j);
    }
    DistinctWithin(s.missing, Expected(drop, hls));
    DistinctWithin(s.missing, distinct);
  }

  // ------------------------------------------------- the separate rules

  /** only the HLS names of an output's files: `[i for i in inputs if is_hls(normalise(i))]` */
  function HlsOnly(isHls: string -> bool, inputs: seq<string>): seq<string>
  {
    if inputs == [] then []
    else
      var last := inputs[|inputs| - 1];
      HlsOnly(isHls, inputs[..|inputs| - 1]) + (if isHls(Normalize(last)) then [last] else [])
  }

  function Cleaned(isHls: string -> bool, outs: seq<DswxGranule>): (r: seq<DswxGranule>)
    ensures |r| == |outs|
  {
    if outs == [] then []
    else
      var o := outs[|outs| - 1];
      Cleaned(isHls, outs[..|outs| - 1]) + [DswxGranule(o.id, HlsOnly(isHls, o.inputs))]
  }

  lemma {:induction false} AddInputsIgnores(isHls: string -> bool, r: Refs, gid: string, inputs: seq<string>)
    ensures AddInputs(isHls, r, gid, inputs) == AddInputs(isHls, r, gid, HlsOnly(isHls, inputs))
  {
    if inputs != [] {
      var init := inputs[..|inputs| - 1];
      var last := inputs[|inputs| - 1];
      AddInputsIgnores(isHls, r, gid, init);
      var name := Normalize(last);
      var h := HlsOnly(isHls, inputs);
      if isHls(name) {
        assert h == HlsOnly(isHls, init) + [last];
        assert h[..|h| - 1] == HlsOnly(isHls, init) && h[|h| - 1] == last;
        assert AddInputs(isHls, r, gid, h) == Append(AddInputs(isHls, r, gid, HlsOnly(isHls, init)), name, gid);
      } else {
        assert h == HlsOnly(isHls, init);
      }
    }
  }

  /** files that are not HLS granules (`worldcover_0.tif`, `GSHHS_f_L1.shp`)
    * change nothing: dropping them from every output gives the same report */
  lemma {:induction false} NonHlsIgnored(isHls: string -> bool, drop: Verdicts, outs: seq<DswxGranule>, hls: seq<HlsGranule>)
    ensures Reconcile(isHls, drop, outs, hls) == Reconcile(isHls, drop, Cleaned(isHls, outs), hls)
  {
    MapOutputsIgnores(isHls, outs);
  }

  lemma {:induction false} MapOutputsIgnores(isHls: string -> bool, outs: seq<DswxGranule>)
    ensures MapOutputs(isHls, outs) == MapOutputs(isHls, Cleaned(isHls, outs))
  {
    if outs != [] {
      var init := outs[..|outs| - 1];
      var o := outs[|outs| - 1];
      MapOutputsIgnores(isHls, init);
      var c := Cleaned(isHls, outs);
      assert c[..|c| - 1] == Cleaned(isHls, init);
      AddInputsIgnores(isHls, MapOutputs(isHls, init), o.id, o.inputs);
    }
  }

  /** the Landsat-9 rule: a granule is dropped iff it is a Landsat-9 granule
    * whose offset-aware acquisition time is strictly before the cutoff; a
    * granule of any other platform is never dropped */
  lemma {:induction false} DroppedIff(g: HlsGranule, cutoff: int)
    ensures Dropped(g, cutoff) == Ok(true) <==>
      "LANDSAT-9" in g.platforms && Acquired(g).Some? && Acquired(g).value.offset.Some? && Instant(Acquired(g).value) < cutoff
    ensures "LANDSAT-9" !in g.platforms ==> (Dropped(g, cutoff).Ok? <==> Acquired(g).Some?) && Dropped(g, cutoff) != Ok(true)
    ensures Dropped(g, cutoff).Err? <==> Acquired(g).None? || ("LANDSAT-9" in g.platforms && Acquired(g).value.offset.None?)
  {}

  /** a dropped granule changes nothing; a kept one adds one to `expected` */
  lemma {:induction false} OneMore(isHls: string -> bool, drop: Verdicts, outs: seq<DswxGranule>, hls: seq<HlsGranule>, g: HlsGranule)
    requires Reconcile(isHls, drop, outs, hls).Ok? && drop(g).Ok?
    ensures Reconcile(isHls, drop, outs, hls + [g]).Ok?
    ensures drop(g) == Ok(true) ==> Reconcile(isHls, drop, outs, hls + [g]) == Reconcile(isHls, drop, outs, hls)
    ensures drop(g) == Ok(false) ==>
      Reconcile(isHls, drop, outs, hls + [g]).value.expected == Reconcile(isHls, drop, outs, hls).value.expected + 1
  {
    var r0 := MapOutputs(isHls, outs);
    var f := Filter(drop, r0, hls);
    assert (hls + [g])[..|hls|] == hls;
    assert Filter(drop, r0, hls + [g]) == Step(drop, f.value, g);
  }

  /** with no granules: zero expected, zero actual, nothing missing */
  lemma {:induction false} NoGranules(isHls: string -> bool, drop: Verdicts)
    ensures Reconcile(isHls, drop, [], []) == Ok(Summary(0, 0, [], 0))
  {
    assert Sort([]) == [];
  }
}
