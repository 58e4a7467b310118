/** The independent analyses of the CMR integration tests: a sort-based
  * duplicate oracle (group every matched record by key, sort each group by
  * creation timestamp, report all but the last) and its agreement with the
  * detector. */
module CmrIntegration {
  import opened Base
  import opened Duplicates
  import Calendar
  import Accountability

  // -------------------------------------------------------------- grouping

  /** `unique_groups`: the records of each key, and the keys in insertion order */
  datatype Groups = Groups(members: map<seq<string>, seq<Kept>>, order: seq<seq<string>>)

  /** every key of the order has a group and the order lists each key once */
  ghost predicate WellFormed(g: Groups)
  {
    && (forall k :: k in g.order <==> k in g.members)
    && Distinct(g.order)
    && (forall k :: k in g.members ==> g.members[k] != [])
    && |g.members| == |g.order|
  }

  /** one iteration of the grouping loop */
  function AddTo(p: Product, g: Groups, id: string): (r: Result<Groups, Failure>)
    ensures WellFormed(g) && r.Ok? ==> WellFormed(r.value)
  {
    match p.pattern(id)
    case None => Ok(g)
    case Some(f) =>
      match GroupKey(p.uniqueFields, f, id)
      case Err(e) => Err(e)
      case Ok(k) =>
        var e := Kept(id, CreationIn(p, f));
        if k in g.members then Ok(Groups(g.members[k := g.members[k] + [e]], g.order))
        else Ok(Groups(g.members[k := [e]], g.order + [k]))
  }

  function GroupAll(p: Product, ids: seq<string>): (r: Result<Groups, Failure>)
    ensures r.Ok? ==> WellFormed(r.value)
  {
    if ids == [] then Ok(Groups(map[], []))
    else match GroupAll(p, ids[..|ids| - 1])
      case Err(e) => Err(e)
      case Ok(g) => AddTo(p, g, ids[|ids| - 1])
  }

  /** `sorted(group, key=creation_ts)[:-1]` of a group with more than one record */
  function Older(m: seq<Kept>): (r: seq<string>)
  {
    if |m| > 1 then Ids(SortBy(m, CreationOf, false)[..|m| - 1]) else []
  }

  /** the oracle's `duplicates`, group after group in insertion order */
  function OracleDups(members: map<seq<string>, seq<Kept>>, order: seq<seq<string>>): seq<string>
    requires forall k :: k in order ==> k in members
  {
    if order == [] then []
    else OracleDups(members, order[..|order| - 1]) + Older(members[order[|order| - 1]])
  }

  datatype OracleReport = OracleReport(total: nat, unique: nat, duplicates: nat, duplicateList: seq<string>)

  /** `analyze_duplicates_from_cmr` */
  function Oracle(p: Product, ids: seq<string>): Result<OracleReport, Failure>
  {
    match GroupAll(p, ids)
    case Err(e) => Err(e)
    case Ok(g) =>
      var d := OracleDups(g.members, g.order);
      Ok(OracleReport(|ids|, |g.members|, |d|, Sort(d)))
  }

  lemma {:induction false} GroupFailureSticks(p: Product, ids: seq<string>, i: nat)
    requires i <= |ids| && GroupAll(p, ids[..i]).Err?
    ensures GroupAll(p, ids) == GroupAll(p, ids[..i])
    decreases |ids| - i
  {
    if i < |ids| {
      assert ids[..i + 1][..i] == ids[..i];
      GroupFailureSticks(p, ids, i + 1);
    } else {
      assert ids[..i] == ids;
    }
  }

  /** the body of the grouping loop: `unique_groups[unique_key].append(...)` */
  method Gather(p: Product, g: Groups, id: string) returns (r: Result<Groups, Failure>)
    ensures r == AddTo(p, g, id)
  {
    var members, order := g.members, g.order;
    match p.pattern(id) {
      case None =>
      case Some(f) =>
        var key := GroupKey(p.uniqueFields, f, id);
        if key.Err? {
          return Err(key.error);
        }
        var k := key.value;
        var e := Kept(id, CreationIn(p, f));
        if k in members {
          members := members[k := members[k] + [e]];
        } else {
          members := members[k := [e]];
          order := order + [k];
        }
    }
    r := Ok(Groups(members, order));
  }

  /** `for g in sorted_granules[:-1]: duplicates.append(g['id'])` for a group of more than one */
  method AppendOlder(dups: seq<string>, group: seq<Kept>) returns (out: seq<string>)
    ensures out == dups + Older(group)
  {
    out := dups;
    if |group| > 1 {
      var sorted := SortBy(group, CreationOf, false);
      var t := 0;
      while t < |sorted| - 1
        invariant 0 <= t <= |sorted| - 1
        invariant out == dups + Ids(sorted[..t])
      {
        assert sorted[..t + 1][..t] == sorted[..t];
        out := out + [sorted[t].id];
        t := t + 1;
      }
    }
  }

  /** the oracle as the test writes it: a grouping loop, then a loop over the groups */
  method AnalyzeDuplicatesFromCmr(p: Product, ids: seq<string>) returns (r: Result<OracleReport, Failure>)
    ensures r == Oracle(p, ids)
  {
    var g := Groups(map[], []);
    var i := 0;
    while i < |ids|
      invariant 0 <= i <= |ids|
      invariant GroupAll(p, ids[..i]) == Ok(g)
    {
      assert ids[..i + 1][..i] == ids[..i];
      var next := Gather(p, g, ids[i]);
      if next.Err? {
        GroupFailureSticks(p, ids, i + 1);
        return Err(next.error);
      }
      g := next.value;
      i := i + 1;
    }
    assert ids[..i] == ids;
    var dups: seq<string> := [];
    var j := 0;
    while j < |g.order|
      invariant 0 <= j <= |g.order|
      invariant dups == OracleDups(g.members, g.order[..j])
    {
      assert g.order[..j + 1][..j] == g.order[..j];
      dups := AppendOlder(dups, g.members[g.order[j]]);
      j := j + 1;
    }
    assert g.order[..j] == g.order;
    r := Ok(OracleReport(|ids|, |g.members|, |dups|, Sort(dups)));
  }

  // ------------------------------------------------ the groups are the keys

  /** what the grouping loop has built: the detector's key order and members */
  ghost predicate GroupsRight(p: Product, ids: seq<string>, g: Groups)
  {
    && g.order == KeyOrder(p, ids)
    && (forall k :: k in g.members ==> g.members[k] == Members(p, ids, k))
    && (forall k :: k !in g.members ==> Members(p, ids, k) == [])
  }

  lemma {:induction false} GroupAllRight(p: Product, ids: seq<string>)
    requires GroupAll(p, ids).Ok?
    ensures GroupsRight(p, ids, GroupAll(p, ids).value)
  {
    if ids != [] {
      var q := ids[..|ids| - 1];
      assert GroupAll(p, q).Ok? && GroupAll(p, ids) == AddTo(p, GroupAll(p, q).value, ids[|ids| - 1]);
      GroupAllRight(p, q);
      GroupStepRightLast(p, ids, GroupAll(p, q).value);
    }
  }

  lemma {:induction false} GroupStepRight(p: Product, q: seq<string>, g: Groups, x: string)
    requires WellFormed(g) && GroupsRight(p, q, g) && AddTo(p, g, x).Ok?
    ensures GroupsRight(p, q + [x], AddTo(p, g, x).value)
  {
    SnocViews(p, q, x);
    AddToCases(p, g, x);
    if p.pattern(x).Some? {
      var k := KeyFor(p, x).value;
      if k in g.members {
        GroupStepSeen(p, q, g, x, k);
      } else {
        GroupStepFresh(p, q, g, x, k);
      }
    }
  }

  lemma {:induction false} GroupStepRightLast(p: Product, ids: seq<string>, g: Groups)
    requires ids != [] && WellFormed(g) && GroupsRight(p, ids[..|ids| - 1], g) && AddTo(p, g, ids[|ids| - 1]).Ok?
    ensures GroupsRight(p, ids, AddTo(p, g, ids[|ids| - 1]).value)
  {
    var q, x := ids[..|ids| - 1], ids[|ids| - 1];
    assert q + [x] == ids;
    GroupStepRight(p, q, g, x);
  }

  /** one iteration of the grouping loop, by its cases */
  lemma {:induction false} AddToCases(p: Product, g: Groups, x: string)
    requires AddTo(p, g, x).Ok?
    ensures p.pattern(x).None? ==> AddTo(p, g, x).value == g && KeyFor(p, x).None?
    ensures p.pattern(x).Some? ==> (KeyFor(p, x).Some? &&
      var k, e := KeyFor(p, x).value, EntryFor(p, x);
      AddTo(p, g, x).value ==
        if k in g.members then Groups(g.members[k := g.members[k] + [e]], g.order) else Groups(g.members[k := [e]], g.order + [k]))
  {
  }

  lemma {:induction false} GroupStepSeen(p: Product, q: seq<string>, g: Groups, x: string, k: seq<string>)
    requires WellFormed(g) && GroupsRight(p, q, g) && p.pattern(x).Some? && KeyFor(p, x) == Some(k) && k in g.members
    ensures GroupsRight(p, q + [x], Groups(g.members[k := g.members[k] + [EntryFor(p, x)]], g.order))
  {
    SnocViews(p, q, x);
  }

  lemma {:induction false} GroupStepFresh(p: Product, q: seq<string>, g: Groups, x: string, k: seq<string>)
    requires WellFormed(g) && GroupsRight(p, q, g) && p.pattern(x).Some? && KeyFor(p, x) == Some(k) && k !in g.members
    ensures GroupsRight(p, q + [x], Groups(g.members[k := [EntryFor(p, x)]], g.order + [k]))
  {
    SnocViews(p, q, x);
    var e := EntryFor(p, x);
    var m1 := g.members[k := [e]];
    assert k !in KeyOrder(p, q);
    assert KeyOrder(p, q + [x]) == g.order + [k];
    forall j | j in m1 ensures m1[j] == Members(p, q + [x], j) {
      if j == k {
        assert Members(p, q, k) == [];
      }
    }
  }

  /** when every matched identifier names the unique fields, grouping succeeds */
  lemma {:induction false} GroupAllSucceeds(p: Product, ids: seq<string>)
    requires forall i :: 0 <= i < |ids| && p.pattern(ids[i]).Some? ==> KeyFor(p, ids[i]).Some?
    ensures GroupAll(p, ids).Ok?
  {
    if ids != [] {
      var q := ids[..|ids| - 1];
      forall i | 0 <= i < |q| && p.pattern(q[i]).Some? ensures KeyFor(p, q[i]).Some? {
        assert q[i] == ids[i];
      }
      GroupAllSucceeds(p, q);
    }
  }

  // ----------------------------------------------- multiset bookkeeping

  /** `[g['id'] for g in ks]` */
  function Ids(ks: seq<Kept>): (r: seq<string>)
    ensures |r| == |ks|
  {
    if ks == [] then [] else Ids(ks[..|ks| - 1]) + [ks[|ks| - 1].id]
  }

  lemma {:induction false} IdsAppend(a: seq<Kept>, b: seq<Kept>)
    ensures Ids(a + b) == Ids(a) + Ids(b)
  {
    if b == [] {
      assert a + b == a;
    } else {
      IdsAppend(a, b[..|b| - 1]);
      assert (a + b)[..|a + b| - 1] == a + b[..|b| - 1];
    }
  }

  lemma {:induction false} IdsSnoc(a: seq<Kept>, y: Kept)
    ensures Ids(a + [y]) == Ids(a) + [y.id]
  {
    assert (a + [y])[..|a + [y]| - 1] == a;
  }

  lemma {:induction false} IdsInsertBy(r: seq<Kept>, x: Kept)
    ensures multiset(Ids(InsertBy(r, x, CreationOf, false))) == multiset(Ids(r)) + multiset{x.id}
  {
    if r != [] && Before(CreationOf, false, x, r[|r| - 1]) {
      var init, last := r[..|r| - 1], r[|r| - 1];
      var q := InsertBy(init, x, CreationOf, false);
      assert InsertBy(r, x, CreationOf, false) == q + [last];
      IdsInsertBy(init, x);
      IdsSnoc(q, last);
      assert Ids(r) == Ids(init) + [last.id];
      assert multiset(Ids(q + [last])) == multiset(Ids(q)) + multiset{last.id};
      assert multiset(Ids(r)) == multiset(Ids(init)) + multiset{last.id};
    } else {
      assert InsertBy(r, x, CreationOf, false) == r + [x];
      IdsSnoc(r, x);
    }
  }

  /** sorting the records permutes their identifiers */
  lemma {:induction false} IdsSortBy(s: seq<Kept>)
    ensures multiset(Ids(SortBy(s, CreationOf, false))) == multiset(Ids(s))
  {
    if s != [] {
      var init, last := s[..|s| - 1], s[|s| - 1];
      var sorted := SortBy(init, CreationOf, false);
      assert SortBy(s, CreationOf, false) == InsertBy(sorted, last, CreationOf, false);
      IdsSortBy(init);
      IdsInsertBy(sorted, last);
      assert multiset(Ids(SortBy(s, CreationOf, false))) == multiset(Ids(sorted)) + multiset{last.id};
      assert Ids(s) == Ids(init) + [last.id];
    }
  }

  /** the identifier of the record a group's ascending sort puts last */
  function LastId(m: seq<Kept>): string
    requires m != []
  {
    m[LastMaxIndex(m, CreationOf)].id
  }

  /** each group contributes everything but its last-sorted record */
  lemma {:induction false} OlderAndLast(m: seq<Kept>)
    requires m != []
    ensures multiset(Older(m)) + multiset{LastId(m)} == multiset(Ids(m))
  {
    var s := SortBy(m, CreationOf, false);
    SortAscLast(m, CreationOf);
    IdsSortBy(m);
    assert s == s[..|m| - 1] + [s[|m| - 1]];
    IdsAppend(s[..|m| - 1], [s[|m| - 1]]);
  }

  /** the oracle's survivors, one per key of `order` */
  function LastIds(members: map<seq<string>, seq<Kept>>, order: seq<seq<string>>): seq<string>
    requires forall k :: k in order ==> k in members && members[k] != []
  {
    if order == [] then [] else LastIds(members, order[..|order| - 1]) + [LastId(members[order[|order| - 1]])]
  }

  /** every identifier of every group of `order` */
  function AllIds(members: map<seq<string>, seq<Kept>>, order: seq<seq<string>>): seq<string>
    requires forall k :: k in order ==> k in members
  {
    if order == [] then [] else AllIds(members, order[..|order| - 1]) + Ids(members[order[|order| - 1]])
  }

  lemma {:induction false} OracleSplit(members: map<seq<string>, seq<Kept>>, order: seq<seq<string>>)
    requires forall k :: k in order ==> k in members && members[k] != []
    ensures multiset(OracleDups(members, order)) + multiset(LastIds(members, order)) == multiset(AllIds(members, order))
    ensures |LastIds(members, order)| == |order|
  {
    if order != [] {
      var o := order[..|order| - 1];
      var m := members[order[|order| - 1]];
      OracleSplit(members, o);
      OlderAndLast(m);
      assert OracleDups(members, order) == OracleDups(members, o) + Older(m);
      assert LastIds(members, order) == LastIds(members, o) + [LastId(m)];
      assert AllIds(members, order) == AllIds(members, o) + Ids(m);
    }
  }

  /** groups of keys other than `k` do not see a change to `k`'s group */
  lemma {:induction false} AllIdsFrame(members: map<seq<string>, seq<Kept>>, order: seq<seq<string>>, k: seq<string>, v: seq<Kept>)
    requires forall j :: j in order ==> j in members
    requires k !in order
    ensures AllIds(members[k := v], order) == AllIds(members, order)
  {
    if order != [] {
      AllIdsFrame(members, order[..|order| - 1], k, v);
    }
  }

  /** one more record in `k`'s group adds its identifier once */
  lemma {:induction false} AllIdsGrow(members: map<seq<string>, seq<Kept>>, order: seq<seq<string>>, k: seq<string>, e: Kept)
    requires forall j :: j in order ==> j in members
    requires Distinct(order) && k in order
    ensures multiset(AllIds(members[k := members[k] + [e]], order)) == multiset(AllIds(members, order)) + multiset{e.id}
  {
    var o := order[..|order| - 1];
    var last := order[|order| - 1];
    IdsAppend(members[k], [e]);
    if last == k {
      assert k !in o;
      AllIdsFrame(members, o, k, members[k] + [e]);
    } else {
      assert k in o;
      AllIdsGrow(members, o, k, e);
    }
  }

  /** one more record adds its identifier to the groups iff it matches */
  lemma {:induction false} GroupStepPartition(p: Product, g: Groups, x: string)
    requires WellFormed(g) && AddTo(p, g, x).Ok?
    ensures multiset(AllIds(AddTo(p, g, x).value.members, AddTo(p, g, x).value.order))
            == multiset(AllIds(g.members, g.order)) + (if p.pattern(x).Some? then multiset{x} else multiset{})
  {
    AddToCases(p, g, x);
    if p.pattern(x).Some? {
      var k, e := KeyFor(p, x).value, EntryFor(p, x);
      assert e.id == x;
      if k in g.members {
        AllIdsGrow(g.members, g.order, k, e);
      } else {
        AllIdsFresh(g.members, g.order, k, e);
      }
    }
  }

  lemma {:induction false} AllIdsFresh(members: map<seq<string>, seq<Kept>>, order: seq<seq<string>>, k: seq<string>, e: Kept)
    requires forall j :: j in order ==> j in members
    requires k !in order
    ensures multiset(AllIds(members[k := [e]], order + [k])) == multiset(AllIds(members, order)) + multiset{e.id}
  {
    AllIdsFrame(members, order, k, [e]);
    assert (order + [k])[..|order + [k]| - 1] == order;
    assert AllIds(members[k := [e]], order + [k]) == AllIds(members[k := [e]], order) + Ids([e]);
    assert Ids([e]) == [e.id];
  }

  /** the groups partition the matched identifiers */
  lemma {:induction false} GroupsPartition(p: Product, ids: seq<string>)
    requires GroupAll(p, ids).Ok?
    ensures multiset(AllIds(GroupAll(p, ids).value.members, GroupAll(p, ids).value.order)) == multiset(Matched(p, ids))
  {
    if ids != [] {
      var q := ids[..|ids| - 1];
      var x := ids[|ids| - 1];
      GroupsPartition(p, q);
      GroupStepPartition(p, GroupAll(p, q).value, x);
    }
  }

  // -------------------------------------------- agreement with the detector

  /** with distinct creation timestamps the oracle's survivors are the detector's */
  lemma {:induction false} LastIdsAreNewest(p: Product, ids: seq<string>, g: Groups, order: seq<seq<string>>)
    requires WellFormed(g) && GroupsRight(p, ids, g)
    requires forall k :: k in order ==> k in g.members
    requires forall k, i, j :: 0 <= i < j < |Members(p, ids, k)| ==> Members(p, ids, k)[i].creation != Members(p, ids, k)[j].creation
    ensures LastIds(g.members, order) == NewestIds(p, ids, order)
  {
    if order != [] {
      ghost var last := order[|order| - 1];
      var o := order[..|order| - 1];
      LastIdsAreNewest(p, ids, g, o);
      MaxIndexUnique(Members(p, ids, last), CreationOf);
      NewestIdsSnoc(p, ids, o, last);
      assert o + [last] == order;
    }
  }

  lemma {:induction false} NewestIdsSnoc(p: Product, ids: seq<string>, order: seq<seq<string>>, k: seq<string>)
    ensures NewestIds(p, ids, order + [k]) == NewestIds(p, ids, order) + NewestIds(p, ids, [k])
  {
    if order != [] {
      assert (order + [k])[1..] == order[1..] + [k];
      NewestIdsSnoc(p, ids, order[1..], k);
    }
  }

  /** an input the detector accepts groups without failure, into the detector's groups */
  lemma {:induction false} OracleGroups(p: Product, ids: seq<string>)
    requires Detect(p, ids).Ok?
    ensures GroupAll(p, ids).Ok? && GroupsRight(p, ids, GroupAll(p, ids).value)
  {
    MatchedKeyed(p, ids, ScanAll(p, ids).value);
    GroupAllSucceeds(p, ids);
    GroupAllRight(p, ids);
  }

  /** the oracle reports every matched identifier but one per group */
  lemma {:induction false} OracleDupsSplit(p: Product, ids: seq<string>)
    requires GroupAll(p, ids).Ok?
    ensures var g := GroupAll(p, ids).value;
      && multiset(OracleDups(g.members, g.order)) + multiset(LastIds(g.members, g.order)) == multiset(Matched(p, ids))
      && |OracleDups(g.members, g.order)| + |g.order| == |Matched(p, ids)|
  {
    var g := GroupAll(p, ids).value;
    GroupsPartition(p, ids);
    OracleSplit(g.members, g.order);
    assert |multiset(OracleDups(g.members, g.order))| + |multiset(LastIds(g.members, g.order))| == |multiset(Matched(p, ids))|;
  }

  /** the counts the integration test compares agree for every input the detector accepts */
  lemma {:induction false} OracleCountsAgree(p: Product, ids: seq<string>)
    requires Detect(p, ids).Ok?
    ensures Oracle(p, ids).Ok?
    ensures Oracle(p, ids).value.total == Detect(p, ids).value.total
    ensures Oracle(p, ids).value.unique == Detect(p, ids).value.unique
    ensures Oracle(p, ids).value.duplicates == Detect(p, ids).value.duplicates
  {
    OracleGroups(p, ids);
    var g := GroupAll(p, ids).value;
    OracleDupsSplit(p, ids);
    var d := OracleDups(g.members, g.order);
    assert Oracle(p, ids) == Ok(OracleReport(|ids|, |g.members|, |d|, Sort(d)));
    DetectReport(p, ids);
  }

  /** when no two records of one key share a creation timestamp, the oracle
    * and the detector report the same duplicate list */
  lemma {:induction false} OracleListAgrees(p: Product, ids: seq<string>)
    requires Detect(p, ids).Ok?
    requires forall k, i, j :: 0 <= i < j < |Members(p, ids, k)| ==> Members(p, ids, k)[i].creation != Members(p, ids, k)[j].creation
    ensures Oracle(p, ids).Ok?
    ensures Oracle(p, ids).value.duplicateList == Detect(p, ids).value.duplicateList
  {
    var s := ScanAll(p, ids).value;
    OracleGroups(p, ids);
    var g := GroupAll(p, ids).value;
    OracleDupsSplit(p, ids);
    LastIdsAreNewest(p, ids, g, g.order);
    var d := OracleDups(g.members, g.order);
    var newest := NewestIds(p, ids, KeyOrder(p, ids));
    assert multiset(d) + multiset(newest) == multiset(Matched(p, ids));
    assert Oracle(p, ids) == Ok(OracleReport(|ids|, |g.members|, |d|, Sort(d)));
    DetectReport(p, ids);
    var listed := Detect(p, ids).value.duplicateList;
    assert listed == Sort(s.displaced);
    assert multiset(listed) + multiset(newest) == multiset(Matched(p, ids));
    MultisetCancel(d, listed, newest, Matched(p, ids));
    SortDeterminedByElements(d, s.displaced);
  }

  lemma {:induction false} MultisetCancel(a: seq<string>, b: seq<string>, c: seq<string>, m: seq<string>)
    requires multiset(a) + multiset(c) == multiset(m) && multiset(b) + multiset(c) == multiset(m)
    ensures multiset(a) == multiset(b)
  {
    assert multiset(a) == multiset(m) - multiset(c);
  }

  lemma {:induction false} GroupTwo(p: Product, a: string, b: string)
    requires KeyFor(p, a).Some? && KeyFor(p, b) == KeyFor(p, a)
    ensures GroupAll(p, [a, b]) == Ok(Groups(map[KeyFor(p, a).value := [EntryFor(p, a), EntryFor(p, b)]], [KeyFor(p, a).value]))
  {
    assert [a, b][..1] == [a];
    assert [a][..0] == [];
    var k := KeyFor(p, a).value;
    var ea, eb := EntryFor(p, a), EntryFor(p, b);
    var none: map<seq<string>, seq<Kept>> := map[];
    var empty: seq<seq<string>> := [];
    var g1 := Groups(none[k := [ea]], empty + [k]);
    assert GroupKey(p.uniqueFields, p.pattern(a).value, a) == Ok(k);
    assert GroupKey(p.uniqueFields, p.pattern(b).value, b) == Ok(k);
    assert AddTo(p, Groups(none, empty), a) == Ok(g1);
    assert GroupAll(p, [a]) == Ok(g1);
    assert g1.members[k] + [eb] == [ea, eb];
    assert g1.members[k := [ea, eb]] == map[k := [ea, eb]];
    assert g1.order == [k];
  }

  lemma {:induction false} OlderTwo(ea: Kept, eb: Kept)
    ensures Older([ea, eb]) == if LexLt(eb.creation, ea.creation) then [eb.id] else [ea.id]
  {
    SortByTwo(ea, eb, CreationOf, false);
    var first := if LexLt(eb.creation, ea.creation) then eb else ea;
    var second := if LexLt(eb.creation, ea.creation) then ea else eb;
    assert [first, second][..1] == [first];
    assert Ids([first]) == [first.id];
  }

  /** two records of one key: the oracle lists the one its stable ascending
    * sort puts first (the first one on a tie) */
  lemma {:induction false} OracleTwoVersions(p: Product, a: string, b: string)
    requires KeyFor(p, a).Some? && KeyFor(p, b) == KeyFor(p, a)
    ensures Oracle(p, [a, b]).Ok?
    ensures Oracle(p, [a, b]).value.total == 2
    ensures Oracle(p, [a, b]).value.unique == 1 && Oracle(p, [a, b]).value.duplicates == 1
    ensures Oracle(p, [a, b]).value.duplicateList == if LexLt(EntryFor(p, b).creation, EntryFor(p, a).creation) then [b] else [a]
  {
    var k := KeyFor(p, a).value;
    var ea, eb := EntryFor(p, a), EntryFor(p, b);
    GroupTwo(p, a, b);
    OlderTwo(ea, eb);
    var g := Groups(map[k := [ea, eb]], [k]);
    var d := if LexLt(eb.creation, ea.creation) then [b] else [a];
    assert [k][..0] == [];
    assert OracleDups(g.members, g.order) == d;
    assert Sort(d) == d;
    assert |g.members| == 1;
    assert Oracle(p, [a, b]) == Ok(OracleReport(2, 1, 1, d));
  }

  /** a tie splits the two: the detector keeps the first record, the stable
    * sort keeps the last */
  lemma {:induction false} TieSplits(p: Product, a: string, b: string)
    requires a != b
    requires KeyFor(p, a).Some? && KeyFor(p, b) == KeyFor(p, a)
    requires AggDate(p, p.pattern(a).value, a).Ok? && AggDate(p, p.pattern(b).value, b).Ok?
    requires Tracked(p) ==> p.creationField.value in p.pattern(b).value
    requires EntryFor(p, a).creation == EntryFor(p, b).creation
    ensures Detect(p, [a, b]).Ok? && Detect(p, [a, b]).value.duplicateList == [b]
    ensures Oracle(p, [a, b]).Ok? && Oracle(p, [a, b]).value.duplicateList == [a]
  {
    TwoVersions(p, a, b);
    OracleTwoVersions(p, a, b);
    LexLtIrreflexive(EntryFor(p, a).creation);
  }

  // ------------------------------------------------ accountability oracle

  /** `analyze_accountability_from_cmr`: the cutoff parsed afresh, the HLS
    * granules taken as the S30 list followed by the L30 list, and the same
    * two loops; it computes what `analyze_accountability` computes */
  method AnalyzeAccountabilityFromCmr(isHls: string -> bool, cutoffText: string,
                                      dswx: seq<Accountability.DswxGranule>,
                                      s30: seq<Accountability.HlsGranule>, l30: seq<Accountability.HlsGranule>)
    returns (r: Result<Accountability.Summary, Accountability.Failure>)
    ensures r == Accountability.Analyze(isHls, cutoffText, dswx, s30 + l30)
  {
    var t := Calendar.ParseIso(RemoveChar(cutoffText, 'Z'));
    if t.None? {
      return Err(Accountability.BadCutoff);
    }
    var cutoff := Calendar.Micros(t.value.local);
    r := Accountability.ReconcileAll(isHls, Accountability.Verdict(cutoff), dswx, s30 + l30);
  }
}
