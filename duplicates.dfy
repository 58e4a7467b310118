/** The opera-audit duplicate detector: each granule identifier is parsed
  * into named fields, the values of the product's unique fields form the
  * group key, one survivor is kept per key (the newest by creation
  * timestamp when the product names a creation field, else the first seen)
  * and every displaced or rejected identifier is reported, with counters
  * per aggregation date. */
module Duplicates {
  import opened Base
  import opened Calendar

  /** `match.groupdict()` of a successful product-pattern match */
  type Fields = map<string, string>

  /** the two `aggregation_format` layouts the products use */
  datatype AggFormat = StampLayout | DateLayout

  /** one product's entry of the configuration */
  datatype Product = Product(
    pattern: string -> Option<Fields>,
    uniqueFields: seq<string>,
    aggField: string,
    aggFormat: AggFormat,
    creationField: Option<string>)

  /** `if creation_field:` (a missing or empty entry is falsy) */
  predicate Tracked(p: Product) { p.creationField.Some? && p.creationField.value != "" }

  /** the exceptions the loop can raise: `KeyError` on a field the pattern
    * does not name, `ValueError` from `strptime` */
  datatype Failure = MissingField(id: string, field: string) | BadTime(id: string, value: string)

  /** `tuple(fields[f] for f in names)` */
  function GroupKey(names: seq<string>, f: Fields, id: string): (r: Result<seq<string>, Failure>)
    ensures r.Ok? <==> forall i :: 0 <= i < |names| ==> names[i] in f
    ensures r.Ok? ==> |r.value| == |names| && forall i :: 0 <= i < |names| ==> r.value[i] == f[names[i]]
    ensures r.Err? ==> r.error.MissingField? && r.error.field in names && r.error.field !in f
  {
    if names == [] then Ok([])
    else if names[0] !in f then Err(MissingField(id, names[0]))
    else match GroupKey(names[1..], f, id)
      case Err(e) => Err(e)
      case Ok(rest) =>
        assert forall i :: 1 <= i < |names| ==> names[i] == names[1..][i - 1];
        Ok([f[names[0]]] + rest)
  }

  function ParseAgg(fmt: AggFormat, v: string): (r: Option<DateTime>)
    ensures r.Some? ==> ValidDateTime(r.value)
  {
    match fmt
    case StampLayout => ParseCompactStamp(v)
    case DateLayout => ParseCompactDate(v)
  }

  /** `datetime.strptime(fields[agg_field], agg_format).date().isoformat()`:
    * the ISO date of the parsed field, which is its first eight characters
    * dashed; a `KeyError` when the field is missing, a `ValueError` when
    * `strptime` rejects it */
  function AggDate(p: Product, f: Fields, id: string): (r: Result<string, Failure>)
    ensures p.aggField !in f ==> r == Err(MissingField(id, p.aggField))
    ensures p.aggField in f ==> (r.Ok? <==> ParseAgg(p.aggFormat, f[p.aggField]).Some?)
    ensures p.aggField in f && r.Err? ==> r == Err(BadTime(id, f[p.aggField]))
    ensures r.Ok? ==> r.value == IsoDate(ParseAgg(p.aggFormat, f[p.aggField]).value.date)
    ensures r.Ok? ==> var v := f[p.aggField]; |v| >= 8 && r.value == v[0..4] + "-" + v[4..6] + "-" + v[6..8]
    ensures r.Ok? ==> |r.value| == 10
  {
    if p.aggField !in f then Err(MissingField(id, p.aggField))
    else match ParseAgg(p.aggFormat, f[p.aggField])
      case None => Err(BadTime(id, f[p.aggField]))
      case Some(t) =>
        AggText(p.aggFormat, f[p.aggField]);
        Ok(IsoDate(t.date))
  }

  lemma {:induction false} AggText(fmt: AggFormat, v: string)
    requires ParseAgg(fmt, v).Some?
    ensures |v| >= 8 && IsoDate(ParseAgg(fmt, v).value.date) == v[0..4] + "-" + v[4..6] + "-" + v[6..8]
  {
    match fmt
    case StampLayout => CompactStampDate(v);
    case DateLayout => CompactDateDate(v);
  }

  /** the group key of an identifier, if it matches and names every unique field */
  function KeyFor(p: Product, id: string): Option<seq<string>>
  {
    match p.pattern(id)
    case None => None
    case Some(f) => if GroupKey(p.uniqueFields, f, id).Ok? then Some(GroupKey(p.uniqueFields, f, id).value) else None
  }

  /** a survivor: identifier and the creation timestamp it was kept with */
  datatype Kept = Kept(id: string, creation: string)

  function CreationOf(k: Kept): string { k.creation }

  /** `fields.get(creation_field, '') if creation_field else ''` */
  function CreationIn(p: Product, f: Fields): string
  {
    if Tracked(p) && p.creationField.value in f then f[p.creationField.value] else ""
  }

  function EntryFor(p: Product, id: string): Kept
    requires p.pattern(id).Some?
  {
    Kept(id, CreationIn(p, p.pattern(id).value))
  }

  datatype Tally = Tally(total: nat, unique: nat, duplicates: nat)

  /** the loop's state: `unique_granules`, `all_duplicates`, `by_date` (and the order its dates appeared in) */
  datatype Scan = Scan(kept: map<seq<string>, Kept>, displaced: seq<string>, byDate: map<string, Tally>, dates: seq<string>)

  const Start := Scan(map[], [], map[], [])

  ghost predicate DatesCover(s: Scan) { forall d :: d in s.dates <==> d in s.byDate }

  /** one iteration of the loop over granule identifiers */
  function Step(p: Product, s: Scan, id: string): (r: Result<Scan, Failure>)
    ensures DatesCover(s) && r.Ok? ==> DatesCover(r.value)
  {
    match p.pattern(id)
    case None => Ok(s)
    case Some(f) =>
      match GroupKey(p.uniqueFields, f, id)
      case Err(e) => Err(e)
      case Ok(key) =>
        match AggDate(p, f, id)
        case Err(e) => Err(e)
        case Ok(d) => Place(p, s, id, f, key, d)
  }

  /** what a matched identifier with group key `key` and date `d` does to the scan */
  function Place(p: Product, s: Scan, id: string, f: Fields, key: seq<string>, d: string): (r: Result<Scan, Failure>)
    ensures DatesCover(s) && r.Ok? ==> DatesCover(r.value)
  {
    var t := if d in s.byDate then s.byDate[d] else Tally(0, 0, 0);
    var dates := if d in s.byDate then s.dates else s.dates + [d];
    if key in s.kept then
      var byDate := s.byDate[d := Tally(t.total + 1, t.unique, t.duplicates + 1)];
      if Tracked(p) then
        if p.creationField.value !in f then Err(MissingField(id, p.creationField.value))
        else if LexLt(s.kept[key].creation, f[p.creationField.value]) then
          Ok(Scan(s.kept[key := Kept(id, f[p.creationField.value])], s.displaced + [s.kept[key].id], byDate, dates))
        else Ok(Scan(s.kept, s.displaced + [id], byDate, dates))
      else Ok(Scan(s.kept, s.displaced + [id], byDate, dates))
    else
      Ok(Scan(s.kept[key := Kept(id, CreationIn(p, f))], s.displaced,
              s.byDate[d := Tally(t.total + 1, t.unique + 1, t.duplicates)], dates))
  }

  function ScanAll(p: Product, ids: seq<string>): (r: Result<Scan, Failure>)
    ensures r.Ok? ==> DatesCover(r.value)
  {
    if ids == [] then Ok(Start)
    else match ScanAll(p, ids[..|ids| - 1])
      case Err(e) => Err(e)
      case Ok(s) => Step(p, s, ids[|ids| - 1])
  }

  /** the report `detect_duplicates` returns */
  datatype Report = Report(total: nat, unique: nat, duplicates: nat, duplicateList: seq<string>, byDate: seq<(string, Tally)>)

  function DateRows(ds: seq<string>, m: map<string, Tally>): (r: seq<(string, Tally)>)
    requires forall d :: d in ds ==> d in m
    ensures |r| == |ds| && forall i :: 0 <= i < |ds| ==> r[i] == (ds[i], m[ds[i]])
  {
    if ds == [] then [] else [(ds[0], m[ds[0]])] + DateRows(ds[1..], m)
  }

  function Summarize(ids: seq<string>, s: Scan): Report
    requires DatesCover(s)
  {
    Report(|ids|, |s.kept|, |s.displaced|, Sort(s.displaced), DateRows(SortedSet(s.dates), s.byDate))
  }

  // ------------------------------------------------- specification views

  /** the identifiers that match the product pattern, in input order */
  function Matched(p: Product, ids: seq<string>): (r: seq<string>)
    ensures |r| <= |ids|
  {
    if ids == [] then []
    else Matched(p, ids[..|ids| - 1]) + (if p.pattern(ids[|ids| - 1]).Some? then [ids[|ids| - 1]] else [])
  }

  /** the matched records whose group key is `k`, in input order */
  function Members(p: Product, ids: seq<string>, k: seq<string>): seq<Kept>
  {
    if ids == [] then []
    else
      var x := ids[|ids| - 1];
      Members(p, ids[..|ids| - 1], k) + (if KeyFor(p, x) == Some(k) then [EntryFor(p, x)] else [])
  }

  /** the distinct group keys in order of first appearance */
  function KeyOrder(p: Product, ids: seq<string>): seq<seq<string>>
  {
    if ids == [] then []
    else
      var o := KeyOrder(p, ids[..|ids| - 1]);
      var x := ids[|ids| - 1];
      if KeyFor(p, x).Some? && KeyFor(p, x).value !in o then o + [KeyFor(p, x).value] else o
  }

  /** the survivors' identifiers, one per key of `order` */
  function SurvivorIds(order: seq<seq<string>>, m: map<seq<string>, Kept>): (r: seq<string>)
    requires forall k :: k in order ==> k in m
    ensures |r| == |order| && forall i :: 0 <= i < |order| ==> r[i] == m[order[i]].id
  {
    if order == [] then [] else [m[order[0]].id] + SurvivorIds(order[1..], m)
  }

  /** per-date counters balance */
  ghost predicate TalliesBalance(s: Scan)
  {
    forall d :: d in s.byDate ==> s.byDate[d].total == s.byDate[d].unique + s.byDate[d].duplicates && s.byDate[d].total >= 1
  }

  /** the survivors are exactly one per key seen, the first record with the greatest creation timestamp */
  ghost predicate SurvivorsRight(p: Product, ids: seq<string>, s: Scan)
  {
    && Distinct(KeyOrder(p, ids))
    && (forall k :: k in KeyOrder(p, ids) <==> k in s.kept)
    && (forall k :: k in s.kept <==> Members(p, ids, k) != [])
    && (forall k :: k in s.kept ==>
          Members(p, ids, k) != [] && s.kept[k] == Members(p, ids, k)[FirstMaxIndex(Members(p, ids, k), CreationOf)])
  }

  /** every matched identifier is either a survivor or displaced */
  ghost predicate Accounted(p: Product, ids: seq<string>, s: Scan)
    requires forall k :: k in KeyOrder(p, ids) ==> k in s.kept
  {
    && |s.kept| == |KeyOrder(p, ids)|
    && |s.kept| + |s.displaced| == |Matched(p, ids)|
    && multiset(s.displaced) + multiset(SurvivorIds(KeyOrder(p, ids), s.kept)) == multiset(Matched(p, ids))
  }

  /** the state a successful scan of `ids` has reached */
  ghost predicate Faithful(p: Product, ids: seq<string>, s: Scan)
  {
    && DatesCover(s)
    && TalliesBalance(s)
    && SurvivorsRight(p, ids, s)
    && Accounted(p, ids, s)
  }

  // --------------------------------------------------------------- proofs

  lemma {:induction false} SurvivorIdsFresh(order: seq<seq<string>>, m: map<seq<string>, Kept>, k: seq<string>, v: Kept)
    requires forall j :: j in order ==> j in m
    requires k !in order
    ensures SurvivorIds(order, m[k := v]) == SurvivorIds(order, m)
  {
  }

  lemma {:induction false} SurvivorIdsReplace(order: seq<seq<string>>, m: map<seq<string>, Kept>, k: seq<string>, v: Kept)
    requires forall j :: j in order ==> j in m
    requires Distinct(order) && k in order
    ensures multiset(SurvivorIds(order, m[k := v])) == multiset(SurvivorIds(order, m)) - multiset{m[k].id} + multiset{v.id}
    ensures m[k].id in multiset(SurvivorIds(order, m))
  {
    var i :| 0 <= i < |order| && order[i] == k;
    var a, b := SurvivorIds(order, m), SurvivorIds(order, m[k := v]);
    assert a[i] == m[k].id;
    forall j | 0 <= j < |order| ensures b[j] == a[i := v.id][j] {
      if j != i {
        assert order[j] != k;
      }
    }
    assert b == a[i := v.id];
    MultisetUpdate(a, i, v.id);
  }

  lemma {:induction false} MatchedKeyed(p: Product, ids: seq<string>, s: Scan)
    requires ScanAll(p, ids) == Ok(s)
    ensures forall i :: 0 <= i < |ids| && p.pattern(ids[i]).Some? ==> KeyFor(p, ids[i]).Some?
  {
    if ids != [] {
      var q := ids[..|ids| - 1];
      var s0 := ScanAll(p, q).value;
      MatchedKeyed(p, q, s0);
      forall i | 0 <= i < |ids| && p.pattern(ids[i]).Some? ensures KeyFor(p, ids[i]).Some? {
        if i < |ids| - 1 { assert ids[i] == q[i]; }
      }
    }
  }

  /** does a record with entry `e` displace the survivor `prev`? (`current_creation_ts > existing_creation_ts`) */
  predicate Newer(prev: Kept, e: Kept) { LexLt(prev.creation, e.creation) }

  /** what one step does to the survivors and the displaced list */
  lemma {:induction false} StepShape(p: Product, s0: Scan, x: string, s: Scan)
    requires Step(p, s0, x) == Ok(s)
    ensures p.pattern(x).None? ==> s == s0
    ensures p.pattern(x).Some? ==> KeyFor(p, x).Some?
    ensures p.pattern(x).Some? && KeyFor(p, x).value !in s0.kept ==>
      s.kept == s0.kept[KeyFor(p, x).value := EntryFor(p, x)] && s.displaced == s0.displaced
    ensures p.pattern(x).Some? && KeyFor(p, x).value in s0.kept && Newer(s0.kept[KeyFor(p, x).value], EntryFor(p, x)) ==>
      s.kept == s0.kept[KeyFor(p, x).value := EntryFor(p, x)] && s.displaced == s0.displaced + [s0.kept[KeyFor(p, x).value].id]
    ensures p.pattern(x).Some? && KeyFor(p, x).value in s0.kept && !Newer(s0.kept[KeyFor(p, x).value], EntryFor(p, x)) ==>
      s.kept == s0.kept && s.displaced == s0.displaced + [x]
  {
    if p.pattern(x).Some? && !Tracked(p) {
      assert EntryFor(p, x).creation == "";
    }
  }

  lemma {:induction false} StepTallies(p: Product, s0: Scan, x: string, s: Scan)
    requires TalliesBalance(s0) && Step(p, s0, x) == Ok(s)
    ensures TalliesBalance(s)
  {
    StepDates(p, s0, x, s);
  }

  /** what one step does to the per-date counters */
  lemma {:induction false} StepDates(p: Product, s0: Scan, x: string, s: Scan)
    requires Step(p, s0, x) == Ok(s)
    ensures p.pattern(x).None? ==> s.byDate == s0.byDate
    ensures p.pattern(x).Some? ==> (KeyFor(p, x).Some? && AggDate(p, p.pattern(x).value, x).Ok? &&
      var d := AggDate(p, p.pattern(x).value, x).value;
      var t := if d in s0.byDate then s0.byDate[d] else Tally(0, 0, 0);
      var isNew := KeyFor(p, x).value !in s0.kept;
      s.byDate == s0.byDate[d := Tally(t.total + 1, t.unique + (if isNew then 1 else 0), t.duplicates + (if isNew then 0 else 1))])
  {
    if p.pattern(x).Some? {
      var f := p.pattern(x).value;
      var key, d := GroupKey(p.uniqueFields, f, x).value, AggDate(p, f, x).value;
      var t := if d in s0.byDate then s0.byDate[d] else Tally(0, 0, 0);
      assert Place(p, s0, x, f, key, d) == Ok(s);
      if key in s0.kept {
        assert s.byDate == s0.byDate[d := Tally(t.total + 1, t.unique, t.duplicates + 1)];
      } else {
        assert s.byDate == s0.byDate[d := Tally(t.total + 1, t.unique + 1, t.duplicates)];
      }
    }
  }

  lemma {:induction false} SnocViews(p: Product, q: seq<string>, x: string)
    ensures (q + [x])[..|q + [x]| - 1] == q
    ensures forall k :: Members(p, q + [x], k) == Members(p, q, k) + (if KeyFor(p, x) == Some(k) then [EntryFor(p, x)] else [])
    ensures Matched(p, q + [x]) == Matched(p, q) + (if p.pattern(x).Some? then [x] else [])
    ensures KeyOrder(p, q + [x]) ==
      if KeyFor(p, x).Some? && KeyFor(p, x).value !in KeyOrder(p, q) then KeyOrder(p, q) + [KeyFor(p, x).value] else KeyOrder(p, q)
  {
    assert (q + [x])[..|q + [x]| - 1] == q;
  }

  /** the keys seen after one more step */
  lemma {:induction false} StepKeys(p: Product, q: seq<string>, s0: Scan, x: string, s: Scan)
    requires SurvivorsRight(p, q, s0) && Step(p, s0, x) == Ok(s)
    ensures Distinct(KeyOrder(p, q + [x]))
    ensures forall k :: k in KeyOrder(p, q + [x]) <==> k in s.kept
    ensures forall k :: k in s.kept <==> Members(p, q + [x], k) != []
  {
    StepShape(p, s0, x, s);
    SnocViews(p, q, x);
  }

  /** the survivor of one key after one more step */
  lemma {:induction false} StepSurvivor(p: Product, q: seq<string>, s0: Scan, x: string, s: Scan, k: seq<string>)
    requires SurvivorsRight(p, q, s0) && Step(p, s0, x) == Ok(s)
    requires k in s.kept
    ensures Members(p, q + [x], k) != []
    ensures s.kept[k] == Members(p, q + [x], k)[FirstMaxIndex(Members(p, q + [x], k), CreationOf)]
  {
    StepShape(p, s0, x, s);
    SnocViews(p, q, x);
    var m := Members(p, q, k);
    if p.pattern(x).Some? && KeyFor(p, x).value == k {
      var e := EntryFor(p, x);
      assert Members(p, q + [x], k) == m + [e];
      if k in s0.kept {
        var j := FirstMaxIndex(m, CreationOf);
        assert (m + [e])[..|m + [e]| - 1] == m;
        assert FirstMaxIndex(m + [e], CreationOf) == if Newer(m[j], e) then |m| else j;
      } else {
        assert m == [];
        assert FirstMaxIndex([e], CreationOf) == 0;
      }
    } else {
      assert Members(p, q + [x], k) == m;
    }
  }

  lemma {:induction false} StepSurvivors(p: Product, q: seq<string>, s0: Scan, x: string, s: Scan)
    requires SurvivorsRight(p, q, s0) && Step(p, s0, x) == Ok(s)
    ensures SurvivorsRight(p, q + [x], s)
  {
    StepKeys(p, q, s0, x, s);
    forall k | k in s.kept
      ensures Members(p, q + [x], k) != []
      ensures s.kept[k] == Members(p, q + [x], k)[FirstMaxIndex(Members(p, q + [x], k), CreationOf)]
    {
      StepSurvivor(p, q, s0, x, s, k);
    }
  }

  lemma {:induction false} SurvivorIdsSnoc(order: seq<seq<string>>, m: map<seq<string>, Kept>, k: seq<string>)
    requires forall j :: j in order ==> j in m
    requires k in m
    ensures SurvivorIds(order + [k], m) == SurvivorIds(order, m) + [m[k].id]
  {
    assert forall j :: j in order + [k] ==> j in m;
  }

  /** the key bookkeeping the accounting steps rely on */
  ghost predicate KeysKept(p: Product, q: seq<string>, s: Scan)
  {
    Distinct(KeyOrder(p, q)) && forall k :: k in KeyOrder(p, q) <==> k in s.kept
  }

  /** a record with a key not seen before becomes its survivor */
  lemma {:induction false} StepAccountedFresh(p: Product, q: seq<string>, s0: Scan, x: string, s: Scan)
    requires KeysKept(p, q, s0) && Accounted(p, q, s0)
    requires p.pattern(x).Some? && KeyFor(p, x).Some? && KeyFor(p, x).value !in s0.kept
    requires s.kept == s0.kept[KeyFor(p, x).value := EntryFor(p, x)] && s.displaced == s0.displaced
    ensures KeysKept(p, q + [x], s) && Accounted(p, q + [x], s)
  {
    SnocViews(p, q, x);
    var o := KeyOrder(p, q);
    var key := KeyFor(p, x).value;
    var e := EntryFor(p, x);
    assert KeyOrder(p, q + [x]) == o + [key];
    assert Matched(p, q + [x]) == Matched(p, q) + [x];
    BookFresh(o, s0.kept, s0.displaced, Matched(p, q), key, e);
  }

  /** the bookkeeping of a fresh key: one more key, survivor and matched record */
  lemma {:induction false} BookFresh(o: seq<seq<string>>, kept: map<seq<string>, Kept>, displaced: seq<string>, matched: seq<string>, key: seq<string>, e: Kept)
    requires Distinct(o) && (forall k :: k in o <==> k in kept) && key !in kept
    requires |kept| == |o| && |kept| + |displaced| == |matched|
    requires multiset(displaced) + multiset(SurvivorIds(o, kept)) == multiset(matched)
    ensures Distinct(o + [key]) && forall k :: k in o + [key] <==> k in kept[key := e]
    ensures |kept[key := e]| == |o + [key]| && |kept[key := e]| + |displaced| == |matched + [e.id]|
    ensures multiset(displaced) + multiset(SurvivorIds(o + [key], kept[key := e])) == multiset(matched + [e.id])
  {
    FreshKeyOrder(o, kept, key, e);
    assert |kept[key := e]| == |kept| + 1;
    FreshSurvivorIds(o, kept, key, e);
  }

  lemma {:induction false} FreshKeyOrder(o: seq<seq<string>>, kept: map<seq<string>, Kept>, key: seq<string>, e: Kept)
    requires Distinct(o) && (forall k :: k in o <==> k in kept) && key !in kept
    ensures Distinct(o + [key]) && forall k :: k in o + [key] <==> k in kept[key := e]
  {
  }

  lemma {:induction false} FreshSurvivorIds(o: seq<seq<string>>, kept: map<seq<string>, Kept>, key: seq<string>, e: Kept)
    requires (forall k :: k in o ==> k in kept) && key !in o
    ensures SurvivorIds(o + [key], kept[key := e]) == SurvivorIds(o, kept) + [e.id]
  {
    SurvivorIdsFresh(o, kept, key, e);
    SurvivorIdsSnoc(o, kept[key := e], key);
  }

  /** a newer record of a key seen before displaces the survivor */
  lemma {:induction false} StepAccountedNewer(p: Product, q: seq<string>, s0: Scan, x: string, s: Scan)
    requires KeysKept(p, q, s0) && Accounted(p, q, s0)
    requires p.pattern(x).Some? && KeyFor(p, x).Some? && KeyFor(p, x).value in s0.kept
    requires s.kept == s0.kept[KeyFor(p, x).value := EntryFor(p, x)]
    requires s.displaced == s0.displaced + [s0.kept[KeyFor(p, x).value].id]
    ensures KeysKept(p, q + [x], s) && Accounted(p, q + [x], s)
  {
    SnocViews(p, q, x);
    var o := KeyOrder(p, q);
    var key := KeyFor(p, x).value;
    var e := EntryFor(p, x);
    assert KeyOrder(p, q + [x]) == o;
    assert Matched(p, q + [x]) == Matched(p, q) + [x];
    assert |s.kept| == |s0.kept|;
    SurvivorIdsReplace(o, s0.kept, key, e);
    BookNewer(multiset(s0.displaced), multiset(SurvivorIds(o, s0.kept)), multiset(SurvivorIds(o, s.kept)),
              multiset(Matched(p, q)), s0.kept[key].id, x);
    assert multiset(s.displaced) == multiset(s0.displaced) + multiset{s0.kept[key].id};
  }

  /** the displaced survivor moves from one book to the other, the newcomer takes its place */
  lemma {:induction false} BookNewer<T>(d: multiset<T>, a: multiset<T>, b: multiset<T>, m: multiset<T>, prev: T, x: T)
    requires prev in a && d + a == m && b == a - multiset{prev} + multiset{x}
    ensures (d + multiset{prev}) + b == m + multiset{x}
  {
    assert a == (a - multiset{prev}) + multiset{prev};
  }


  /** an older or equal record of a key seen before is displaced itself */
  lemma {:induction false} StepAccountedOlder(p: Product, q: seq<string>, s0: Scan, x: string, s: Scan)
    requires KeysKept(p, q, s0) && Accounted(p, q, s0)
    requires p.pattern(x).Some? && KeyFor(p, x).Some? && KeyFor(p, x).value in s0.kept
    requires s.kept == s0.kept && s.displaced == s0.displaced + [x]
    ensures KeysKept(p, q + [x], s) && Accounted(p, q + [x], s)
  {
    SnocViews(p, q, x);
    assert KeyOrder(p, q + [x]) == KeyOrder(p, q);
    assert Matched(p, q + [x]) == Matched(p, q) + [x];
    assert multiset(s.displaced) == multiset(s0.displaced) + multiset{x};
  }

  lemma {:induction false} StepAccounted(p: Product, q: seq<string>, s0: Scan, x: string, s: Scan)
    requires KeysKept(p, q, s0) && Accounted(p, q, s0) && Step(p, s0, x) == Ok(s)
    ensures KeysKept(p, q + [x], s) && Accounted(p, q + [x], s)
  {
    StepShape(p, s0, x, s);
    if p.pattern(x).None? {
      SnocViews(p, q, x);
    } else if KeyFor(p, x).value in s0.kept {
      if Newer(s0.kept[KeyFor(p, x).value], EntryFor(p, x)) {
        StepAccountedNewer(p, q, s0, x, s);
      } else {
        StepAccountedOlder(p, q, s0, x, s);
      }
    } else {
      StepAccountedFresh(p, q, s0, x, s);
    }
  }

  lemma {:induction false} StepFaithful(p: Product, q: seq<string>, s0: Scan, x: string, s: Scan)
    requires Faithful(p, q, s0) && Step(p, s0, x) == Ok(s)
    ensures Faithful(p, q + [x], s)
  {
    StepTallies(p, s0, x, s);
    StepSurvivors(p, q, s0, x, s);
    assert KeysKept(p, q, s0);
    StepAccounted(p, q, s0, x, s);
  }

  lemma {:induction false} ScanFaithful(p: Product, ids: seq<string>, s: Scan)
    requires ScanAll(p, ids) == Ok(s)
    ensures Faithful(p, ids, s)
  {
    if ids == [] {
    } else {
      var q := ids[..|ids| - 1];
      var s0 := ScanAll(p, q).value;
      ScanFaithful(p, q, s0);
      SplitLast(ids);
      StepFaithful(p, q, s0, ids[|ids| - 1], s);
    }
  }

  /** the detector's result */
  function Detect(p: Product, ids: seq<string>): Result<Report, Failure>
  {
    match ScanAll(p, ids)
    case Err(e) => Err(e)
    case Ok(s) => Ok(Summarize(ids, s))
  }

  /** an exception ends the loop: the first failure is the result */
  lemma {:induction false} ScanFailureSticks(p: Product, ids: seq<string>, i: nat)
    requires i <= |ids| && ScanAll(p, ids[..i]).Err?
    ensures ScanAll(p, ids) == ScanAll(p, ids[..i])
    decreases |ids| - i
  {
    if i < |ids| {
      assert ids[..i + 1][..i] == ids[..i];
      ScanFailureSticks(p, ids, i + 1);
    } else {
      assert ids[..i] == ids;
    }
  }

  /** the body of the loop of `detect_duplicates`, on the loop's state */
  method Visit(p: Product, s: Scan, id: string) returns (r: Result<Scan, Failure>)
    ensures r == Step(p, s, id)
  {
    match p.pattern(id) {
      case None =>
        r := Ok(s);
      case Some(f) =>
        var key := GroupKey(p.uniqueFields, f, id);
        if key.Err? {
          return Err(key.error);
        }
        var agg := AggDate(p, f, id);
        if agg.Err? {
          return Err(agg.error);
        }
        r := Record(p, s, id, f, key.value, agg.value);
    }
  }

  /** the counters and the kept and displaced identifiers updated for one match */
  method Record(p: Product, s: Scan, id: string, f: Fields, k: seq<string>, d: string) returns (r: Result<Scan, Failure>)
    ensures r == Place(p, s, id, f, k, d)
  {
    var kept, displaced, byDate, dates := s.kept, s.displaced, s.byDate, s.dates;
    var t := if d in byDate then byDate[d] else Tally(0, 0, 0);
    if d !in byDate {
      dates := dates + [d];
    }
    if k in kept {
      byDate := byDate[d := Tally(t.total + 1, t.unique, t.duplicates + 1)];
      var existing := kept[k];
      if Tracked(p) {
        var c := p.creationField.value;
        if c !in f {
          return Err(MissingField(id, c));
        }
        if LexLt(existing.creation, f[c]) {
          displaced := displaced + [existing.id];
          kept := kept[k := Kept(id, f[c])];
        } else {
          displaced := displaced + [id];
        }
      } else {
        displaced := displaced + [id];
      }
    } else {
      kept := kept[k := Kept(id, CreationIn(p, f))];
      byDate := byDate[d := Tally(t.total + 1, t.unique + 1, t.duplicates)];
    }
    r := Ok(Scan(kept, displaced, byDate, dates));
  }

  /** `detect_duplicates`: the loop over the identifiers, then the sorted report */
  method DetectDuplicates(p: Product, ids: seq<string>) returns (r: Result<Report, Failure>)
    ensures r == Detect(p, ids)
  {
    var s := Start;
    var i := 0;
    while i < |ids|
      invariant 0 <= i <= |ids|
      invariant ScanAll(p, ids[..i]) == Ok(s)
    {
      assert ids[..i + 1][..i] == ids[..i];
      var next := Visit(p, s, ids[i]);
      if next.Err? {
        ScanFailureSticks(p, ids, i + 1);
        return Err(next.error);
      }
      s := next.value;
      i := i + 1;
    }
    assert ids[..i] == ids;
    r := Ok(Report(|ids|, |s.kept|, |s.displaced|, Sort(s.displaced), DateRows(SortedSet(s.dates), s.byDate)));
  }

  // ------------------------------------------------- what the report means

  /** the survivor the detector keeps for key `k`: the first record with the greatest creation timestamp */
  function Newest(p: Product, ids: seq<string>, k: seq<string>): Kept
    requires Members(p, ids, k) != []
  {
    Members(p, ids, k)[FirstMaxIndex(Members(p, ids, k), CreationOf)]
  }

  /** the identifiers of the survivors of the keys of `order` */
  function NewestIds(p: Product, ids: seq<string>, order: seq<seq<string>>): seq<string>
  {
    if order == [] then []
    else (if Members(p, ids, order[0]) != [] then [Newest(p, ids, order[0]).id] else []) + NewestIds(p, ids, order[1..])
  }

  lemma {:induction false} NewestIdsAre(p: Product, ids: seq<string>, order: seq<seq<string>>, m: map<seq<string>, Kept>)
    requires forall k :: k in order ==> k in m && Members(p, ids, k) != [] && m[k] == Newest(p, ids, k)
    ensures SurvivorIds(order, m) == NewestIds(p, ids, order)
  {
    if order != [] {
      NewestIdsAre(p, ids, order[1..], m);
    }
  }

  /** Counts and contents of a successful report: `total` is every input
    * identifier, `unique` the number of distinct group keys, every matched
    * identifier is a survivor or in `duplicate_list` (so matched == unique +
    * duplicates), and `duplicate_list` is sorted and holds exactly the
    * matched identifiers that are not the newest of their key. */
  lemma {:induction false} DetectReport(p: Product, ids: seq<string>)
    requires Detect(p, ids).Ok?
    ensures Detect(p, ids).value.total == |ids|
    ensures Detect(p, ids).value.unique == |KeyOrder(p, ids)|
    ensures Detect(p, ids).value.unique + Detect(p, ids).value.duplicates == |Matched(p, ids)|
    ensures |Detect(p, ids).value.duplicateList| == Detect(p, ids).value.duplicates
    ensures Sorted(Detect(p, ids).value.duplicateList)
    ensures multiset(Detect(p, ids).value.duplicateList) + multiset(NewestIds(p, ids, KeyOrder(p, ids)))
            == multiset(Matched(p, ids))
  {
    var s := ScanAll(p, ids).value;
    ScanFaithful(p, ids, s);
    NewestIdsAre(p, ids, KeyOrder(p, ids), s.kept);
    SortSorted(s.displaced);
  }

  /** `by_date` comes out in ascending date order, once per date, and every
    * date balances: total == unique + duplicates, with total at least one */
  lemma {:induction false} DetectByDate(p: Product, ids: seq<string>)
    requires Detect(p, ids).Ok?
    ensures var rows := Detect(p, ids).value.byDate;
      && (forall i, j :: 0 <= i < j < |rows| ==> LexLt(rows[i].0, rows[j].0))
      && (forall i :: 0 <= i < |rows| ==> rows[i].1.total == rows[i].1.unique + rows[i].1.duplicates && rows[i].1.total >= 1)
  {
    var s := ScanAll(p, ids).value;
    ScanTallies(p, ids, s);
    assert Detect(p, ids).value.byDate == DateRows(SortedSet(s.dates), s.byDate);
    RowsBalance(s);
  }

  /** the aggregation date the loop files a matched, keyed identifier under */
  function DateOf(p: Product, x: string): Option<string>
  {
    match p.pattern(x)
    case None => None
    case Some(f) => if KeyFor(p, x).Some? && AggDate(p, f, x).Ok? then Some(AggDate(p, f, x).value) else None
  }

  /** the date each identifier is filed under, in input order */
  function Filed(p: Product, ids: seq<string>): (r: seq<Option<string>>)
    ensures |r| == |ids|
  {
    if ids == [] then [] else Filed(p, ids[..|ids| - 1]) + [DateOf(p, ids[|ids| - 1])]
  }

  lemma {:induction false} FiledAt(p: Product, ids: seq<string>)
    ensures forall i :: 0 <= i < |ids| ==> Filed(p, ids)[i] == DateOf(p, ids[i])
  {
    if ids != [] {
      var q := ids[..|ids| - 1];
      FiledAt(p, q);
      assert forall i :: 0 <= i < |q| ==> q[i] == ids[i];
    }
  }

  /** for each identifier, its date when its group key appears there for the first time */
  function FirstFiled(p: Product, ids: seq<string>): (r: seq<Option<string>>)
    ensures |r| == |ids|
  {
    if ids == [] then []
    else
      var q, x := ids[..|ids| - 1], ids[|ids| - 1];
      FirstFiled(p, q) + [if DateOf(p, x).Some? && KeyFor(p, x).value !in KeyOrder(p, q) then DateOf(p, x) else None]
  }

  lemma {:induction false} ScanKeys(p: Product, ids: seq<string>, s: Scan)
    requires ScanAll(p, ids) == Ok(s)
    ensures forall k :: k in KeyOrder(p, ids) <==> k in s.kept
  {
    ScanFaithful(p, ids, s);
  }

  /** after any prefix, `by_date` has a row for exactly the dates some
    * identifier was filed under, with `total` the number filed there and
    * `unique` the number among them whose key appeared for the first time */
  lemma {:induction false} ScanDates(p: Product, ids: seq<string>, s: Scan)
    requires ScanAll(p, ids) == Ok(s)
    ensures forall d :: d in s.byDate <==> Some(d) in Filed(p, ids)
    ensures forall d :: d !in s.byDate ==> Some(d) !in FirstFiled(p, ids)
    ensures forall d :: d in s.byDate ==>
      s.byDate[d].total == multiset(Filed(p, ids))[Some(d)] && s.byDate[d].unique == multiset(FirstFiled(p, ids))[Some(d)]
  {
    if ids != [] {
      var q, x := ids[..|ids| - 1], ids[|ids| - 1];
      var s0 := ScanAll(p, q).value;
      ScanDates(p, q, s0);
      ScanKeys(p, q, s0);
      StepFiled(p, s0, x, s);
      var dx := DateOf(p, x);
      assert Filed(p, ids) == Filed(p, q) + [dx];
      var first := if dx.Some? && KeyFor(p, x).value !in KeyOrder(p, q) then dx else None;
      assert FirstFiled(p, ids) == FirstFiled(p, q) + [first];
      var isNew := dx.Some? && KeyFor(p, x).value !in s0.kept;
      assert first == (if isNew then dx else None);
      TalliesSnoc(s0.byDate, s.byDate, Filed(p, q), FirstFiled(p, q), dx, isNew);
    }
  }

  /** the per-date counters after one more identifier filed under `dx` */
  lemma {:induction false} TalliesSnoc(b0: map<string, Tally>, b: map<string, Tally>, filed: seq<Option<string>>,
                                       firsts: seq<Option<string>>, dx: Option<string>, isNew: bool)
    requires forall d :: d in b0 <==> Some(d) in filed
    requires forall d :: d in b0 ==> b0[d].total == multiset(filed)[Some(d)] && b0[d].unique == multiset(firsts)[Some(d)]
    requires forall d :: d !in b0 ==> Some(d) !in firsts
    requires TallyStep(b0, b, dx, isNew)
    ensures forall d :: d in b <==> Some(d) in filed + [dx]
    ensures forall d :: d !in b ==> Some(d) !in firsts + [if isNew then dx else None]
    ensures var first := if isNew then dx else None;
      forall d :: d in b ==> b[d].total == multiset(filed + [dx])[Some(d)] && b[d].unique == multiset(firsts + [first])[Some(d)]
  {
    var first := if isNew then dx else None;
    forall d
      ensures d in b <==> Some(d) in filed + [dx]
      ensures d !in b ==> Some(d) !in firsts + [first]
      ensures d in b ==> b[d].total == multiset(filed + [dx])[Some(d)] && b[d].unique == multiset(firsts + [first])[Some(d)]
    {
      CountSnoc(filed, dx, Some(d));
      CountSnoc(firsts, first, Some(d));
      if dx == Some(d) {
        assert first == Some(d) <==> isNew;
      } else {
        assert first != Some(d);
      }
    }
  }

  lemma {:induction false} CountSnoc<T>(a: seq<T>, y: T, z: T)
    ensures z in a + [y] <==> z in a || y == z
    ensures multiset(a + [y])[z] == multiset(a)[z] + (if y == z then 1 else 0)
  {
  }

  /** one step in terms of the date the identifier is filed under */
  lemma {:induction false} StepFiled(p: Product, s0: Scan, x: string, s: Scan)
    requires Step(p, s0, x) == Ok(s)
    ensures DateOf(p, x).Some? ==> KeyFor(p, x).Some?
    ensures TallyStep(s0.byDate, s.byDate, DateOf(p, x), DateOf(p, x).Some? && KeyFor(p, x).value !in s0.kept)
  {
    StepDates(p, s0, x, s);
    DatesTallyStep(p, x, s0.kept, s0.byDate, s.byDate);
  }

  /** the counters update of one step, read through `DateOf` */
  lemma {:induction false} DatesTallyStep(p: Product, x: string, kept: map<seq<string>, Kept>, b0: map<string, Tally>, b: map<string, Tally>)
    requires p.pattern(x).None? ==> b == b0
    requires p.pattern(x).Some? ==> (KeyFor(p, x).Some? && AggDate(p, p.pattern(x).value, x).Ok? &&
      var d := AggDate(p, p.pattern(x).value, x).value;
      var t := if d in b0 then b0[d] else Tally(0, 0, 0);
      var isNew := KeyFor(p, x).value !in kept;
      b == b0[d := Tally(t.total + 1, t.unique + (if isNew then 1 else 0), t.duplicates + (if isNew then 0 else 1))])
    ensures DateOf(p, x).Some? ==> KeyFor(p, x).Some?
    ensures TallyStep(b0, b, DateOf(p, x), DateOf(p, x).Some? && KeyFor(p, x).value !in kept)
  {
    if p.pattern(x).Some? {
      assert DateOf(p, x) == Some(AggDate(p, p.pattern(x).value, x).value);
    }
  }

  /** the per-date counters after one identifier filed under `dx` (nowhere
    * when `dx` is `None`), counted as unique when `isNew` */
  ghost predicate TallyStep(b0: map<string, Tally>, b: map<string, Tally>, dx: Option<string>, isNew: bool)
  {
    && (dx.None? ==> b == b0)
    && (dx.Some? ==>
         var t := if dx.value in b0 then b0[dx.value] else Tally(0, 0, 0);
         b == b0[dx.value := Tally(t.total + 1, t.unique + (if isNew then 1 else 0), t.duplicates + (if isNew then 0 else 1))])
  }

  /** Each row of `by_date` is a date some matched identifier aggregates to
    * and every such date has a row; its `total` counts the identifiers
    * filed under that date and its `unique` those whose group key had not
    * been seen before them. */
  lemma {:induction false} DetectDateCounts(p: Product, ids: seq<string>)
    requires Detect(p, ids).Ok?
    ensures var rows := Detect(p, ids).value.byDate;
      && (forall i :: 0 <= i < |rows| ==> Some(rows[i].0) in Filed(p, ids))
      && (forall d :: Some(d) in Filed(p, ids) ==> exists i :: 0 <= i < |rows| && rows[i].0 == d)
      && (forall i :: 0 <= i < |rows| ==>
            rows[i].1.total == multiset(Filed(p, ids))[Some(rows[i].0)] &&
            rows[i].1.unique == multiset(FirstFiled(p, ids))[Some(rows[i].0)])
  {
    var s := ScanAll(p, ids).value;
    ScanDates(p, ids, s);
    assert Detect(p, ids).value.byDate == DateRows(SortedSet(s.dates), s.byDate);
    RowsCover(s);
  }

  /** the rows list every date of the scan, each with its own counters */
  lemma {:induction false} RowsCover(s: Scan)
    requires DatesCover(s)
    ensures var rows := DateRows(SortedSet(s.dates), s.byDate);
      && (forall i :: 0 <= i < |rows| ==> rows[i].0 in s.byDate && rows[i].1 == s.byDate[rows[i].0])
      && (forall d :: d in s.byDate ==> exists i :: 0 <= i < |rows| && rows[i].0 == d)
  {
    var ds := SortedSet(s.dates);
    var rows := DateRows(ds, s.byDate);
    forall d | d in s.byDate ensures exists i :: 0 <= i < |rows| && rows[i].0 == d {
      assert d in ds;
      var i :| 0 <= i < |ds| && ds[i] == d;
      assert rows[i].0 == d;
    }
  }

  lemma {:induction false} ScanTallies(p: Product, ids: seq<string>, s: Scan)
    requires ScanAll(p, ids) == Ok(s)
    ensures TalliesBalance(s)
  {
    if ids != [] {
      var s0 := ScanAll(p, ids[..|ids| - 1]).value;
      ScanTallies(p, ids[..|ids| - 1], s0);
      StepTallies(p, s0, ids[|ids| - 1], s);
    }
  }

  /** the report's date rows, in ascending order and each balanced */
  lemma {:induction false} RowsBalance(s: Scan)
    requires DatesCover(s) && TalliesBalance(s)
    ensures var rows := DateRows(SortedSet(s.dates), s.byDate);
      && (forall i, j :: 0 <= i < j < |rows| ==> LexLt(rows[i].0, rows[j].0))
      && (forall i :: 0 <= i < |rows| ==> rows[i].1.total == rows[i].1.unique + rows[i].1.duplicates && rows[i].1.total >= 1)
  {
    var ds := SortedSet(s.dates);
    assert StrictlySorted(ds);
    var rows := DateRows(ds, s.byDate);
    forall i | 0 <= i < |rows| ensures rows[i].0 == ds[i] && ds[i] in s.byDate && rows[i].1 == s.byDate[ds[i]] {
    }
  }

  /** the survivor has the greatest creation timestamp of its group, and a
    * tie keeps the earlier record (the comparison is a strict `>`) */
  lemma {:induction false} NewestIsLatest(p: Product, ids: seq<string>, k: seq<string>)
    requires Members(p, ids, k) != []
    ensures var m := Members(p, ids, k);
      && (forall j :: 0 <= j < |m| ==> LexLe(m[j].creation, Newest(p, ids, k).creation))
      && exists i :: 0 <= i < |m| && m[i] == Newest(p, ids, k) && forall j :: 0 <= j < i ==> LexLt(m[j].creation, m[i].creation)
  {
    var m := Members(p, ids, k);
    FirstMaxIndexSpec(m, CreationOf);
    var i := FirstMaxIndex(m, CreationOf);
    assert m[i] == Newest(p, ids, k);
  }

  lemma {:induction false} UntrackedCreations(p: Product, ids: seq<string>, k: seq<string>)
    requires !Tracked(p)
    ensures forall j :: 0 <= j < |Members(p, ids, k)| ==> Members(p, ids, k)[j].creation == ""
  {
    if ids != [] {
      UntrackedCreations(p, ids[..|ids| - 1], k);
    }
  }

  /** without a creation field the first record seen for a key survives */
  lemma {:induction false} UntrackedKeepsFirst(p: Product, ids: seq<string>, k: seq<string>)
    requires !Tracked(p) && Members(p, ids, k) != []
    ensures Newest(p, ids, k) == Members(p, ids, k)[0]
  {
    var m := Members(p, ids, k);
    UntrackedCreations(p, ids, k);
    FirstMaxIndexSpec(m, CreationOf);
  }

  /** two records of one key: the older is listed as the duplicate (the
    * second one also on a tie, or when no creation field is configured) */
  lemma {:induction false} TwoVersions(p: Product, a: string, b: string)
    requires KeyFor(p, a).Some? && KeyFor(p, b) == KeyFor(p, a)
    requires AggDate(p, p.pattern(a).value, a).Ok? && AggDate(p, p.pattern(b).value, b).Ok?
    requires Tracked(p) ==> p.creationField.value in p.pattern(b).value
    ensures Detect(p, [a, b]).Ok?
    ensures Detect(p, [a, b]).value.total == 2
    ensures Detect(p, [a, b]).value.unique == 1 && Detect(p, [a, b]).value.duplicates == 1
    ensures Detect(p, [a, b]).value.duplicateList == if Newer(EntryFor(p, a), EntryFor(p, b)) then [a] else [b]
  {
    var s1 := FirstVersion(p, a);
    if !Tracked(p) {
      assert EntryFor(p, a).creation == "" && EntryFor(p, b).creation == "";
      LexLtIrreflexive("");
    }
    assert Step(p, s1, b).Ok?;
    var s2 := Step(p, s1, b).value;
    StepShape(p, s1, b, s2);
    assert [a, b][..1] == [a];
    assert ScanAll(p, [a, b]) == Ok(s2);
    assert Sort([a]) == [a] && Sort([b]) == [b];
  }

  lemma {:induction false} FirstVersion(p: Product, a: string) returns (s1: Scan)
    requires KeyFor(p, a).Some? && AggDate(p, p.pattern(a).value, a).Ok?
    ensures ScanAll(p, [a]) == Ok(s1)
    ensures s1.kept == map[KeyFor(p, a).value := EntryFor(p, a)] && s1.displaced == []
  {
    assert [a][..0] == [];
    s1 := Step(p, Start, a).value;
  }

  /** no identifiers: zero counts, no duplicates, no dates */
  lemma {:induction false} NoGranules(p: Product)
    ensures Detect(p, []) == Ok(Report(0, 0, 0, [], []))
  {
    assert SortedSet([]) == [];
  }
}
