/** `find_granules.py`: the S3 prefix and typical file of an input granule, and the
  * sorting of a list of granules into found and missing lists. The S3 `HEAD` request
  * is a parameter; the Elasticsearch check is the stub the script ships. */
module FindGranules {
  import opened Base

  /** the exceptions the script can raise on one granule */
  datatype Raised = IndexError | UnboundLocal | TypeError | ClientError(code: string) | OtherError

  /** `get_prefix(granule)`: `inputs/<dir>/<granule>-r1`, the directory from the first
    * two `.` fields of an HLS name or the third `_` field of an SLC name */
  function GetPrefix(g: string): (r: Result<string, Raised>)
    ensures r.Ok? ==> Contains(g, "HLS") || Contains(g, "SLC")
    ensures r.Ok? ==> StartsWith(r.value, "inputs/") && EndsWith(r.value, "/" + g + "-r1")
    ensures r == Err(UnboundLocal) <==> !Contains(g, "HLS") && !Contains(g, "SLC")
  {
    if Contains(g, "HLS") then
      var f := Split(g, '.');
      if |f| < 2 then Err(IndexError) else Ok("inputs/" + f[0] + "_" + f[1] + "/" + g + "-r1")
    else if Contains(g, "SLC") then
      var f := Split(g, '_');
      if |f| < 3 then Err(IndexError) else Ok("inputs/" + f[2] + "/" + g + "-r1")
    else Err(UnboundLocal)
  }

  /** an HLS name `<a>.<b>...` has the prefix `inputs/<a>_<b>/<name>-r1`
    * (`HLS.S30.T34HCH.2025024T082139.v2.0` lands under `inputs/HLS_S30/`) */
  lemma {:induction false} HlsPrefix(a: string, b: string, tail: string)
    requires '.' !in a && '.' !in b && (tail == [] || tail[0] == '.')
    requires Contains(a + "." + b + tail, "HLS")
    ensures GetPrefix(a + "." + b + tail) == Ok("inputs/" + a + "_" + b + "/" + (a + "." + b + tail) + "-r1")
  {
    var g := a + "." + b + tail;
    assert g == a + ['.'] + (b + tail);
    SplitCons(a, b + tail, '.');
    if tail == [] {
      assert b + tail == b;
      SplitNone(b, '.');
    } else {
      assert b + tail == b + ['.'] + tail[1..];
      SplitCons(b, tail[1..], '.');
    }
  }

  /** an SLC name `<a>_<b>_<c>...` without `HLS` has the prefix `inputs/<c>/<name>-r1` */
  lemma {:induction false} SlcPrefix(a: string, b: string, c: string, tail: string)
    requires '_' !in a && '_' !in b && '_' !in c && (tail == [] || tail[0] == '_')
    requires !Contains(a + "_" + b + "_" + c + tail, "HLS") && Contains(a + "_" + b + "_" + c + tail, "SLC")
    ensures GetPrefix(a + "_" + b + "_" + c + tail) == Ok("inputs/" + c + "/" + (a + "_" + b + "_" + c + tail) + "-r1")
  {
    SlcFields(a, b, c, tail);
  }

  /** the third `_` field of `<a>_<b>_<c>...` is `<c>` */
  lemma {:induction false} SlcFields(a: string, b: string, c: string, tail: string)
    requires '_' !in a && '_' !in b && '_' !in c && (tail == [] || tail[0] == '_')
    ensures var f := Split(a + "_" + b + "_" + c + tail, '_'); |f| >= 3 && f[2] == c
  {
    var rest := c + tail;
    SplitLead(c, tail, '_');
    var m := b + ['_'] + rest;
    SplitCons(b, rest, '_');
    SplitCons(a, m, '_');
    Regroup(a, b, c, tail, '_');
  }

  lemma {:induction false} Regroup(a: string, b: string, c: string, tail: string, sep: char)
    ensures a + [sep] + b + [sep] + c + tail == a + [sep] + (b + [sep] + (c + tail))
  {
  }

  /** the first piece of `<c><sep>...` or of `<c>` alone is `<c>` */
  lemma {:induction false} SplitLead(c: string, tail: string, sep: char)
    requires sep !in c && (tail == [] || tail[0] == sep)
    ensures Split(c + tail, sep)[0] == c
  {
    if tail == [] {
      assert c + tail == c;
      SplitNone(c, sep);
    } else {
      assert c + tail == c + [sep] + tail[1..];
      SplitCons(c, tail[1..], sep);
    }
  }

  /** `get_typical_gran_file(granule)`: `.zip` for SLC (checked first), the context
    * file for HLS.S30 and HLS.L30, None otherwise */
  function TypicalFile(g: string): (r: Option<string>)
    ensures r.Some? ==> StartsWith(r.value, g)
    ensures r.None? <==> !Contains(g, "SLC") && !Contains(g, "HLS.S30") && !Contains(g, "HLS.L30")
  {
    if Contains(g, "SLC") then Some(g + ".zip")
    else if Contains(g, "HLS.S30") || Contains(g, "HLS.L30") then Some(g + "-r1.context.json")
    else None
  }

  /** what `s3.Object(bucket, path).load()` does */
  datatype S3Reply = Loaded | ClientFailure(code: string) | OtherFailure

  type HeadFn = string -> S3Reply

  /** `check_granule_s3`: a 404 is "missing", any other failure is raised; a granule
    * without a typical file fails on `prefix + "/" + None` */
  function CheckS3(head: HeadFn, g: string, prefix: string): (r: Result<bool, Raised>)
    ensures r == Ok(true) ==> TypicalFile(g).Some? && head(prefix + "/" + TypicalFile(g).value) == Loaded
    ensures r == Ok(false) ==> TypicalFile(g).Some? && head(prefix + "/" + TypicalFile(g).value) == ClientFailure("404")
  {
    match TypicalFile(g)
    case None => Err(TypeError)
    case Some(f) =>
      match head(prefix + "/" + f)
      case Loaded => Ok(true)
      case ClientFailure(code) => if code == "404" then Ok(false) else Err(ClientError(code))
      case OtherFailure => Err(OtherError)
  }

  /** `check_granule_grq`: the search is commented out and the flag stays False */
  function CheckGrq(g: string): bool { false }

  /** the six result lists */
  datatype Kind = S3Missing | S3Found | GrqMissing | GrqFound | BothMissing | BothFound

  /** the `if`/`elif` chain of `find_missing_granules` */
  function Classify(grq: bool, s3: bool): (k: Kind)
    ensures k != GrqMissing && k != GrqFound
    ensures k == BothFound <==> grq && s3
    ensures k == BothMissing <==> !grq && !s3
  {
    if grq && s3 then BothFound
    else if !grq && !s3 then BothMissing
    else if s3 then S3Found
    else if !s3 then S3Missing
    else if grq then GrqFound
    else GrqMissing
  }

  datatype Lists = Lists(s3Missing: seq<string>, s3Found: seq<string>, grqMissing: seq<string>,
                         grqFound: seq<string>, bothMissing: seq<string>, bothFound: seq<string>)

  function Put(l: Lists, k: Kind, g: string): Lists
  {
    match k
    case S3Missing => l.(s3Missing := l.s3Missing + [g])
    case S3Found => l.(s3Found := l.s3Found + [g])
    case GrqMissing => l.(grqMissing := l.grqMissing + [g])
    case GrqFound => l.(grqFound := l.grqFound + [g])
    case BothMissing => l.(bothMissing := l.bothMissing + [g])
    case BothFound => l.(bothFound := l.bothFound + [g])
  }

  /** one stripped granule: its S3 check, or the exception on the way */
  function Check(head: HeadFn, g: string): Result<bool, Raised>
  {
    match GetPrefix(g)
    case Err(e) => Err(e)
    case Ok(prefix) => CheckS3(head, g, prefix)
  }

  /** the check of a stripped granule, kept a parameter of the loop's specification */
  type CheckFn = string -> Result<bool, Raised>

  function Checker(head: HeadFn): CheckFn { g => Check(head, g) }

  /** the granules of the file: each line with its surrounding white space stripped */
  function Granules(lines: seq<string>): (gs: seq<string>)
    ensures |gs| == |lines|
  {
    seq(|lines|, i requires 0 <= i < |lines| => Strip(lines[i]))
  }

  /** the loop of `find_missing_granules` over the stripped granules */
  function FindAll(check: CheckFn, gs: seq<string>): Result<Lists, Raised>
  {
    if gs == [] then Ok(Lists([], [], [], [], [], []))
    else
      match FindAll(check, gs[..|gs| - 1])
      case Err(e) => Err(e)
      case Ok(l) =>
        var g := gs[|gs| - 1];
        match check(g)
        case Err(e) => Err(e)
        case Ok(s3) => Ok(Put(l, Classify(CheckGrq(g), s3), g))
  }

  lemma {:induction false} FindAllSticks(check: CheckFn, gs: seq<string>, i: nat)
    requires i <= |gs| && FindAll(check, gs[..i]).Err?
    ensures FindAll(check, gs) == FindAll(check, gs[..i])
    decreases |gs| - i
  {
    if i < |gs| {
      assert gs[..i + 1][..i] == gs[..i];
      FindAllSticks(check, gs, i + 1);
    } else {
      assert gs[..i] == gs;
    }
  }

  /** one more granule: the lists so far with it put in its list, or the first exception */
  lemma {:induction false} FindAllStep(check: CheckFn, gs: seq<string>, i: nat)
    requires i < |gs|
    ensures FindAll(check, gs[..i + 1]) ==
      match FindAll(check, gs[..i])
      case Err(e) => Err(e)
      case Ok(l) =>
        match check(gs[i])
        case Err(e) => Err(e)
        case Ok(s3) => Ok(Put(l, Classify(CheckGrq(gs[i]), s3), gs[i]))
  {
    assert gs[..i + 1][..i] == gs[..i];
  }

  lemma {:induction false} GranuleAt(lines: seq<string>, i: nat)
    requires i < |lines|
    ensures Granules(lines)[i] == Strip(lines[i])
  {
  }

  /** `find_missing_granules(granule_list)`, the file given as its lines */
  method FindMissingGranules(head: HeadFn, lines: seq<string>) returns (r: Result<Lists, Raised>)
    ensures r == FindAll(Checker(head), Granules(lines))
  {
    ghost var check := Checker(head);
    ghost var gs := Granules(lines);
    var s3Missing, s3Found, grqMissing, grqFound, bothMissing, bothFound := [], [], [], [], [], [];
    for i := 0 to |lines|
      invariant FindAll(check, gs[..i]) == Ok(Lists(s3Missing, s3Found, grqMissing, grqFound, bothMissing, bothFound))
    {
      FindAllStep(check, gs, i);
      var granule := Strip(lines[i]);
      GranuleAt(lines, i);
      var prefix := GetPrefix(granule);
      if prefix.Err? {
        assert FindAll(check, gs[..i + 1]) == Err(prefix.error);
        FindAllSticks(check, gs, i + 1);
        return Err(prefix.error);
      }
      var s3 := CheckS3(head, granule, prefix.value);
      if s3.Err? {
        assert FindAll(check, gs[..i + 1]) == Err(s3.error);
        FindAllSticks(check, gs, i + 1);
        return Err(s3.error);
      }
      var s3Hit := s3.value;
      var grqHit := CheckGrq(granule);
      ghost var next := Put(Lists(s3Missing, s3Found, grqMissing, grqFound, bothMissing, bothFound), Classify(grqHit, s3Hit), granule);
      assert FindAll(check, gs[..i + 1]) == Ok(next);
      if grqHit && s3Hit {
        bothFound := bothFound + [granule];
      } else if !grqHit && !s3Hit {
        bothMissing := bothMissing + [granule];
      } else if s3Hit {
        s3Found := s3Found + [granule];
      } else if !s3Hit {
        s3Missing := s3Missing + [granule];
      } else if grqHit {
        grqFound := grqFound + [granule];
      } else if !grqHit {
        grqMissing := grqMissing + [granule];
      }
      assert next == Lists(s3Missing, s3Found, grqMissing, grqFound, bothMissing, bothFound);
    }
    assert gs[..|lines|] == gs;
    r := Ok(Lists(s3Missing, s3Found, grqMissing, grqFound, bothMissing, bothFound));
  }

  /** the loop raises exactly when the check of some granule raises (the first such) */
  lemma {:induction false} FindAllFails(check: CheckFn, gs: seq<string>)
    ensures FindAll(check, gs).Err? <==> exists g :: g in gs && check(g).Err?
  {
    if gs != [] {
      var init := gs[..|gs| - 1];
      FindAllFails(check, init);
      assert gs == init + [gs[|gs| - 1]];
    }
  }

  /** with the stub search, every granule goes to `s3_found` or `both_missing`;
    * the other four lists stay empty */
  lemma {:induction false} FindAllShape(check: CheckFn, gs: seq<string>)
    requires FindAll(check, gs).Ok?
    ensures var l := FindAll(check, gs).value;
      l.s3Missing == [] && l.grqMissing == [] && l.grqFound == [] && l.bothFound == []
      && |l.s3Found| + |l.bothMissing| == |gs|
  {
    if gs != [] {
      FindAllShape(check, gs[..|gs| - 1]);
    }
  }

  /** `s3_found` holds exactly the granules whose object is in S3, `both_missing`
    * exactly the others */
  lemma {:induction false} FindAllMembers(check: CheckFn, gs: seq<string>, x: string, hit: bool)
    requires FindAll(check, gs).Ok?
    ensures var l := FindAll(check, gs).value;
      (x in (if hit then l.s3Found else l.bothMissing)) <==> x in gs && check(x) == Ok(hit)
  {
    if gs != [] {
      var init := gs[..|gs| - 1];
      FindAllMembers(check, init, x, hit);
      assert gs == init + [gs[|gs| - 1]];
    }
  }

  /** when every object is in S3, `s3_found` is the file's granules in file order */
  lemma {:induction false} FindAllFound(check: CheckFn, gs: seq<string>)
    requires forall g :: g in gs ==> check(g) == Ok(true)
    ensures FindAll(check, gs) == Ok(Lists([], gs, [], [], [], []))
  {
    if gs != [] {
      var init, last := gs[..|gs| - 1], gs[|gs| - 1];
      assert FindAll(check, init) == Ok(Lists([], init, [], [], [], [])) by {
        assert forall g :: g in init ==> g in gs;
        FindAllFound(check, init);
      }
      assert check(last) == Ok(true) && Classify(CheckGrq(last), true) == S3Found;
      assert gs == init + [last];
    }
  }
}
