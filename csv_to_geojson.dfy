/** `missing_rtc_static_layers/csv_to_geojson.py`: the lines of a CSV file of
  * bursts turned into GeoJSON features, each with its burst, SAFE file and
  * orbit fields, its footprint and a marker colour. The file is given as the
  * lines Python's file iteration yields; reading the footprint's WKT text
  * (`wkt.loads`) is the parameter `loads`, which gives no geometry where it
  * raises. */
module CsvToGeojson {
  import opened Base

  /** the marker colour of a burst with a SAFE file */
  const Blue := "#1f78b4"
  /** the marker colour of a burst whose id is `none` */
  const Red := "#e31a1c"

  /** `s.split(c, n)`: at most `n` splits, the rest of the text in the last piece */
  function SplitMax(s: string, c: char, n: nat): (r: seq<string>)
    decreases n
    ensures 1 <= |r| <= n + 1
  {
    if n == 0 then [s]
    else
      match FindChar(s, c, 0)
      case None => [s]
      case Some(i) => [s[..i]] + SplitMax(s[i + 1..], c, n - 1)
  }

  /** joining the pieces with the separator gives back the text */
  lemma {:induction false} SplitMaxJoin(s: string, c: char, n: nat)
    ensures Join(SplitMax(s, c, n), [c]) == s
    decreases n
  {
    var i := SplitMaxCase(s, c, n);
    if i >= 0 {
      SplitMaxJoin(s[i + 1..], c, n - 1);
      Glue(s, i, c, SplitMax(s[i + 1..], c, n - 1));
    }
  }

  lemma {:induction false} Glue(s: string, i: nat, c: char, rest: seq<string>)
    requires i < |s| && s[i] == c && rest != [] && Join(rest, [c]) == s[i + 1..]
    ensures Join([s[..i]] + rest, [c]) == s
  {
    JoinCons(s[..i], rest, [c]);
    Around(s, i);
  }

  /** the two shapes of a split: the whole text, or a first piece up to the
    * separator at `i` and the split of the rest */
  lemma {:induction false} SplitMaxCase(s: string, c: char, n: nat) returns (i: int)
    ensures i < 0 ==> SplitMax(s, c, n) == [s] && (n > 0 ==> c !in s)
    ensures i >= 0 ==> n > 0 && i < |s| && s[i] == c && c !in s[..i]
    ensures i >= 0 ==> SplitMax(s, c, n) == [s[..i]] + SplitMax(s[i + 1..], c, n - 1)
  {
    if n == 0 || FindChar(s, c, 0).None? {
      i := -1;
    } else {
      i := FindChar(s, c, 0).value;
    }
  }

  lemma {:induction false} Around(s: string, i: nat)
    requires i < |s|
    ensures s == s[..i] + [s[i]] + s[i + 1..]
  {
  }

  /** no piece but the last holds the separator */
  lemma {:induction false} SplitMaxPieces(s: string, c: char, n: nat)
    ensures var r := SplitMax(s, c, n); forall k :: 0 <= k < |r| - 1 ==> c !in r[k]
    decreases n
  {
    var i := SplitMaxCase(s, c, n);
    if i >= 0 {
      var rest := SplitMax(s[i + 1..], c, n - 1);
      SplitMaxPieces(s[i + 1..], c, n - 1);
      var r := [s[..i]] + rest;
      forall k | 0 <= k < |r| - 1 ensures c !in r[k] {
        if k > 0 {
          assert r[k] == rest[k - 1];
        }
      }
    }
  }

  /** `line.split(",", 4)`: at most 5 parts */
  function Parts(line: string): (r: seq<string>)
    ensures 1 <= |r| <= 5
  {
    SplitMax(line, ',', 4)
  }

  lemma {:induction false} JoinCons(p: string, rest: seq<string>, sep: string)
    requires rest != []
    ensures Join([p] + rest, sep) == p + sep + Join(rest, sep)
  {
    assert ([p] + rest)[1..] == rest;
  }

  function Min(a: nat, b: nat): nat { if a <= b then a else b }

  /** the number of pieces is one more than the number of separators, up to
    * `n` of them */
  lemma {:induction false} SplitMaxCount(s: string, c: char, n: nat)
    ensures |SplitMax(s, c, n)| == Min(n, multiset(s)[c]) + 1
    decreases n
  {
    var i := SplitMaxCase(s, c, n);
    if i < 0 {
      if n > 0 {
        assert c !in multiset(s);
      }
    } else {
      SplitMaxCount(s[i + 1..], c, n - 1);
      CountAround(s, i);
    }
  }

  lemma {:induction false} CountAround(s: string, i: nat)
    requires i < |s| && s[i] !in s[..i]
    ensures multiset(s)[s[i]] == multiset(s[i + 1..])[s[i]] + 1
  {
    Around(s, i);
    assert multiset(s) == multiset(s[..i]) + multiset{s[i]} + multiset(s[i + 1..]);
  }

  /** `parts[4].strip().replace('\n', ' ').replace('\r', ' ').strip('"')` */
  function Polygon(p: string): string
  {
    StripBy(ReplaceChar(ReplaceChar(Strip(p), '\n', ' '), '\r', ' '), IsQuote)
  }

  predicate IsQuote(c: char) { c == '"' }

  predicate NoBreak(s: string) { forall k :: 0 <= k < |s| ==> s[k] != '\n' && s[k] != '\r' }

  /** the footprint text holds no line break and has no quote at either end */
  lemma {:induction false} PolygonClean(p: string)
    ensures var r := Polygon(p);
      '\n' !in r && '\r' !in r && (r != [] ==> r[0] != '"' && r[|r| - 1] != '"')
  {
    var q := ReplaceChar(ReplaceChar(Strip(p), '\n', ' '), '\r', ' ');
    assert NoBreak(q);
    var r := StripBy(q, IsQuote);
    var i, j :| 0 <= i <= j <= |q| && r == q[i..j];
    SliceNoBreak(q, i, j);
  }

  lemma {:induction false} SliceNoBreak(q: string, i: nat, j: nat)
    requires NoBreak(q) && i <= j <= |q|
    ensures '\n' !in q[i..j] && '\r' !in q[i..j]
  {
    assert NoBreak(q[i..j]);
  }

  /** blue unless the burst id is `none` in any letter case */
  function Color(burstId: string): string
  {
    if Lower(burstId) != "none" then Blue else Red
  }

  /** a marker is red exactly for the ids `none`, `None`, `NONE` and the other
    * spellings of `none` with upper-case letters */
  lemma {:induction false} ColorSpec(burstId: string)
    ensures Color(burstId) == Red <==>
      |burstId| == 4 && burstId[0] in "nN" && burstId[1] in "oO" && burstId[2] in "nN" && burstId[3] in "eE"
  {
    var l := Lower(burstId);
    if |burstId| == 4 && burstId[0] in "nN" && burstId[1] in "oO" && burstId[2] in "nN" && burstId[3] in "eE" {
      assert l == "none";
    }
    if l == "none" {
      assert l[0] == 'n' && l[1] == 'o' && l[2] == 'n' && l[3] == 'e';
    }
  }

  /** one feature: its geometry and its properties */
  datatype Feature<G> = Feature(geometry: G, burstId: string, safeId: string, absOrbit: string, relOrbit: string, color: string)

  /** the properties of a feature, in the order the script lists them */
  function Properties<G>(f: Feature<G>): seq<(string, string)>
  {
    [("burst_id", f.burstId), ("safe_file_id", f.safeId), ("absolute_orbit", f.absOrbit), ("relative_orbit", f.relOrbit),
     ("marker-color", f.color), ("marker-symbol", "circle"), ("marker-size", "medium")]
  }

  /** what the loop body does with one line */
  datatype Outcome<G> =
    | Blank                              // an empty line, skipped
    | Malformed(num: nat, text: string)  // fewer than 5 parts: reported and skipped
    | BadPolygon(num: nat)               // `wkt.loads` raises
    | Good(feature: Feature<G>)

  /** the line numbered `num`, read */
  function LineOutcome<G>(num: nat, line: string, loads: string -> Option<G>): Outcome<G>
  {
    var t := Strip(line);
    if t == "" then Blank
    else
      var parts := Parts(t);
      if |parts| < 5 then Malformed(num, t)
      else
        match loads(Polygon(parts[4]))
        case None => BadPolygon(num)
        case Some(g) => Good(MakeFeature(parts, g))
  }

  /** the feature of a line's five parts and its geometry */
  function MakeFeature<G>(parts: seq<string>, g: G): Feature<G>
    requires |parts| == 5
  {
    var burstId := Strip(parts[0]);
    Feature(g, burstId, Strip(parts[1]), Strip(parts[2]), Strip(parts[3]), Color(burstId))
  }

  /** a line is reported as malformed exactly when it is not blank and holds
    * fewer than 4 commas once stripped */
  lemma {:induction false} MalformedSpec<G>(num: nat, line: string, loads: string -> Option<G>)
    ensures LineOutcome(num, line, loads).Malformed? <==> Strip(line) != "" && multiset(Strip(line))[','] < 4
  {
    SplitMaxCount(Strip(line), ',', 4);
  }

  /** the fields of a feature, with the commas between them, are the stripped
    * line: nothing of it is lost but the spaces around fields and the
    * footprint's clean-up */
  lemma {:induction false} GoodFields<G>(num: nat, line: string, loads: string -> Option<G>)
    requires LineOutcome(num, line, loads).Good?
    ensures var parts := Parts(Strip(line));
      var f := LineOutcome(num, line, loads).feature;
      |parts| == 5 && Join(parts, ",") == Strip(line)
      && f.burstId == Strip(parts[0]) && f.safeId == Strip(parts[1])
      && f.absOrbit == Strip(parts[2]) && f.relOrbit == Strip(parts[3])
      && ',' !in f.burstId + f.safeId + f.absOrbit + f.relOrbit
      && loads(Polygon(parts[4])) == Some(f.geometry)
  {
    var parts := Parts(Strip(line));
    SplitMaxJoin(Strip(line), ',', 4);
    SplitMaxPieces(Strip(line), ',', 4);
    forall k | 0 <= k < 4 ensures ',' !in Strip(parts[k]) {
      var i, j :| 0 <= i <= j <= |parts[k]| && Strip(parts[k]) == parts[k][i..j];
      assert ',' !in parts[k];
    }
  }

  /** the features and the malformed lines reported, in file order */
  datatype Converted<G> = Converted(features: seq<Feature<G>>, malformed: seq<(nat, string)>)

  /** what the script can raise */
  datatype Raised =
    | NoHeader        // `next(f)` on an empty file: `StopIteration`
    | BadWkt(num: nat) // `wkt.loads` on the line numbered `num`

  /** one line's outcome added to what the lines before it gave */
  function Step<G>(c: Result<Converted<G>, Raised>, o: Outcome<G>): Result<Converted<G>, Raised>
  {
    match c
    case Err(e) => Err(e)
    case Ok(c) =>
      match o
      case Blank => Ok(c)
      case Malformed(n, t) => Ok(c.(malformed := c.malformed + [(n, t)]))
      case BadPolygon(n) => Err(BadWkt(n))
      case Good(f) => Ok(c.(features := c.features + [f]))
  }

  /** what reading one numbered line gives */
  function Reader<G>(loads: string -> Option<G>): (nat, string) -> Outcome<G>
  {
    (num: nat, line: string) => LineOutcome(num, line, loads)
  }

  /** the outcomes of the lines after the header, the k-th numbered k + 2 */
  function Outcomes<G>(lines: seq<string>, read: (nat, string) -> Outcome<G>): (r: seq<Outcome<G>>)
    ensures |r| == |lines|
  {
    seq(|lines|, k requires 0 <= k < |lines| => read(k + 2, lines[k]))
  }

  /** the outcomes in order, up to the first that raises */
  function Body<G>(outs: seq<Outcome<G>>): Result<Converted<G>, Raised>
    decreases |outs|
  {
    if outs == [] then Ok(Converted([], []))
    else Step(Body(outs[..|outs| - 1]), outs[|outs| - 1])
  }

  /** `csv_to_geojson`: the header skipped, then every line read */
  function Convert<G>(file: seq<string>, loads: string -> Option<G>): Result<Converted<G>, Raised>
  {
    if file == [] then Err(NoHeader) else Body(Outcomes(file[1..], Reader(loads)))
  }

  /** the outcome at index `k` that reports a line gives it the number k + 2 */
  predicate Numbered<G>(outs: seq<Outcome<G>>)
  {
    forall k :: 0 <= k < |outs| && outs[k].Malformed? ==> outs[k].num == k + 2
  }

  lemma {:induction false} OutcomesNumbered<G>(lines: seq<string>, loads: string -> Option<G>)
    ensures Numbered(Outcomes(lines, Reader(loads)))
  {
    var outs := Outcomes(lines, Reader(loads));
    forall k | 0 <= k < |outs| && outs[k].Malformed? ensures outs[k].num == k + 2 {
      MalformedNumber(k + 2, lines[k], loads);
    }
  }

  lemma {:induction false} MalformedNumber<G>(num: nat, line: string, loads: string -> Option<G>)
    requires LineOutcome(num, line, loads).Malformed?
    ensures LineOutcome(num, line, loads).num == num
  {
  }

  /** each line reported comes from an outcome of its own number, and lines
    * are reported once each, in file order */
  lemma {:induction false} MalformedOrder<G>(outs: seq<Outcome<G>>)
    requires Numbered(outs) && Body(outs).Ok?
    ensures var m := Body(outs).value.malformed;
      && (forall k :: 0 <= k < |m| ==> (2 <= m[k].0 <= |outs| + 1 && outs[m[k].0 - 2] == Malformed(m[k].0, m[k].1)))
      && (forall k, l :: 0 <= k < l < |m| ==> m[k].0 < m[l].0)
    decreases |outs|
  {
    if outs != [] {
      var init := outs[..|outs| - 1];
      assert Numbered(init) by {
        forall k | 0 <= k < |init| ensures init[k] == outs[k] { }
      }
      MalformedOrder(init);
      forall k | 0 <= k < |init| ensures init[k] == outs[k] { }
    }
  }

  /** each line yields at most one feature or report */
  lemma {:induction false} BodyCount<G>(outs: seq<Outcome<G>>)
    requires Body(outs).Ok?
    ensures |Body(outs).value.features| + |Body(outs).value.malformed| <= |outs|
    decreases |outs|
  {
    if outs != [] {
      BodyCount(outs[..|outs| - 1]);
    }
  }

  lemma {:induction false} BodyNext<G>(outs: seq<Outcome<G>>, i: nat)
    requires i < |outs|
    ensures Body(outs[..i + 1]) == Step(Body(outs[..i]), outs[i])
  {
    assert outs[..i + 1][..i] == outs[..i];
  }

  /** a line whose footprint cannot be read stops the conversion there */
  lemma {:induction false} BodySticks<G>(outs: seq<Outcome<G>>, i: nat)
    requires i <= |outs| && Body(outs[..i]).Err?
    ensures Body(outs) == Body(outs[..i])
    decreases |outs| - i
  {
    if i < |outs| {
      assert outs[..i + 1][..i] == outs[..i];
      BodySticks(outs, i + 1);
    } else {
      assert outs[..i] == outs;
    }
  }

  /** `csv_to_geojson`: the header skipped, then the loop over the lines */
  method CsvToGeojson<G>(file: seq<string>, loads: string -> Option<G>) returns (r: Result<Converted<G>, Raised>)
    ensures r == Convert(file, loads)
  {
    if file == [] {
      return Err(NoHeader);
    }
    r := ReadLines(file[1..], Reader(loads));
  }

  /** the loop over the lines after the header, each read by `read` */
  method ReadLines<G>(lines: seq<string>, read: (nat, string) -> Outcome<G>) returns (r: Result<Converted<G>, Raised>)
    ensures r == Body(Outcomes(lines, read))
  {
    ghost var outs := Outcomes(lines, read);
    var features: seq<Feature<G>> := [];
    var malformed: seq<(nat, string)> := [];
    for i := 0 to |lines|
      invariant Body(outs[..i]) == Ok(Converted(features, malformed))
    {
      var o := read(i + 2, lines[i]);
      BodyNext(outs, i);
      var next := Absorb(features, malformed, o);
      if next.Err? {
        BodySticks(outs, i + 1);
        return next;
      }
      features, malformed := next.value.features, next.value.malformed;
    }
    assert outs[..|outs|] == outs;
    r := Ok(Converted(features, malformed));
  }

  /** the loop body after reading a line: a report or a feature appended,
    * or the exception */
  method Absorb<G>(features: seq<Feature<G>>, malformed: seq<(nat, string)>, o: Outcome<G>)
    returns (r: Result<Converted<G>, Raised>)
    ensures r == Step(Ok(Converted(features, malformed)), o)
  {
    match o
    case Blank =>
      r := Ok(Converted(features, malformed));
    case Malformed(n, t) =>
      r := Ok(Converted(features, malformed + [(n, t)]));
    case BadPolygon(n) =>
      r := Err(BadWkt(n));
    case Good(f) =>
      r := Ok(Converted(features + [f], malformed));
  }
}
