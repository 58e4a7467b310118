/** `cmn_send_manual.py`: finding the user rule that sends CMR notifications for a
  * dataset type, narrowing its query to one product `_id`, deriving the job name
  * and tallying the submissions. Elasticsearch, mozart and the job submission
  * itself are parameters: `search` stands for the GRQ search and `submit` for
  * `submit_mozart_job`, returning `false` where it raises. */
module CmnSendManual {
  import opened Base

  // ------------------------------------------------------------ JSON values

  /** a JSON value as `json.loads` returns it */
  datatype Json = Null | Bool(b: bool) | Num(n: int) | Str(s: string) | Arr(items: seq<Json>) | Obj(fields: map<string, Json>)

  /** `{"match": {"_id": id}}` */
  function MatchId(id: string): Json
  {
    Obj(map["match" := Obj(map["_id" := Str(id)])])
  }

  /** an Elasticsearch query as a value: its `bool` clause, if any, split into
    * the `must` list, if any, and the clause's other keys; `rest` holds the
    * query's keys other than `bool` */
  datatype BoolDoc = BoolDoc(must: Option<seq<Json>>, rest: map<string, Json>)
  datatype QueryDoc = QueryDoc(boolClause: Option<BoolDoc>, rest: map<string, Json>)

  /** the `must` list of a query, empty when it has none */
  function MustOf(d: QueryDoc): seq<Json>
  {
    if d.boolClause.Some? && d.boolClause.value.must.Some? then d.boolClause.value.must.value else []
  }

  /** what `update_user_rule_query(query, id)` returns, as a value: the query
    * with `bool` and `bool.must` created when missing and the match on `id`
    * appended to `must` */
  function Updated(d: QueryDoc, id: string): QueryDoc
  {
    var b := if d.boolClause.Some? then d.boolClause.value else BoolDoc(None, map[]);
    QueryDoc(Some(b.(must := Some(MustOf(d) + [MatchId(id)]))), d.rest)
  }

  /** the updated query has a `must` list: the old one, or none, followed by
    * exactly one new entry, the match on `id`; every other key is kept */
  lemma {:induction false} UpdatedSpec(d: QueryDoc, id: string)
    ensures var r := Updated(d, id);
      && r.boolClause.Some? && r.boolClause.value.must.Some?
      && MustOf(r) == MustOf(d) + [MatchId(id)]
      && r.rest == d.rest
      && r.boolClause.value.rest == (if d.boolClause.Some? then d.boolClause.value.rest else map[])
  {
  }

  /** narrowing twice keeps both matches, in order, after the original entries */
  lemma {:induction false} UpdatedTwice(d: QueryDoc, a: string, b: string)
    ensures MustOf(Updated(Updated(d, a), b)) == MustOf(d) + [MatchId(a), MatchId(b)]
    ensures Updated(Updated(d, a), b).rest == d.rest
  {
    UpdatedSpec(d, a);
    UpdatedSpec(Updated(d, a), b);
  }

  // ------------------------------------------------- the query as Python objects

  /** a Python list object, the `must` list */
  class MustList {
    var items: seq<Json>

    constructor (items: seq<Json>)
      ensures this.items == items
    {
      this.items := items;
    }
  }

  /** a Python dict object, the `bool` clause */
  class BoolDict {
    var must: MustList?
    var rest: map<string, Json>

    constructor (must: MustList?, rest: map<string, Json>)
      ensures this.must == must && this.rest == rest
    {
      this.must := must;
      this.rest := rest;
    }
  }

  /** a Python dict object, the query; `copy()` of it shares the `bool` dict */
  class Query {
    var boolDict: BoolDict?
    var rest: map<string, Json>

    constructor (boolDict: BoolDict?, rest: map<string, Json>)
      ensures this.boolDict == boolDict && this.rest == rest
    {
      this.boolDict := boolDict;
      this.rest := rest;
    }

    /** the value the objects reachable from this query spell */
    function Doc(): QueryDoc
      reads this, boolDict, if boolDict != null then {boolDict.must} else {}
    {
      if boolDict == null then QueryDoc(None, rest)
      else
        var m := if boolDict.must == null then None else Some(boolDict.must.items);
        QueryDoc(Some(BoolDoc(m, boolDict.rest)), rest)
    }
  }

  /** `json.loads`: fresh objects spelling `d` */
  method Load(d: QueryDoc) returns (q: Query)
    ensures fresh(q) && q.Doc() == d
    ensures q.boolDict != null ==> fresh(q.boolDict) && (q.boolDict.must != null ==> fresh(q.boolDict.must))
  {
    var b: BoolDict? := null;
    if d.boolClause.Some? {
      var m: MustList? := null;
      if d.boolClause.value.must.Some? {
        m := new MustList(d.boolClause.value.must.value);
      }
      b := new BoolDict(m, d.boolClause.value.rest);
    }
    q := new Query(b, d.rest);
  }

  /** `update_user_rule_query(query, _id)`: a shallow copy of `query` whose
    * `bool.must` list gains the match on `_id`. The copy shares the `bool`
    * dict, so when `query` has one, the `must` list is created in it or appended
    * to in place, and `query` itself sees the new entry; only a query without
    * `bool` is left as it was */
  method UpdateUserRuleQuery(query: Query, id: string) returns (r: Query)
    modifies query.boolDict, if query.boolDict != null then {query.boolDict.must} else {}
    ensures fresh(r)
    ensures r.Doc() == Updated(old(query.Doc()), id)
    ensures query.boolDict == old(query.boolDict) && query.rest == old(query.rest)
    ensures old(query.boolDict) == null ==> query.Doc() == old(query.Doc()) && fresh(r.boolDict)
    ensures old(query.boolDict) != null ==>
      r.boolDict == query.boolDict && query.Doc() == QueryDoc(r.Doc().boolClause, old(query.rest))
    ensures old(query.boolDict) != null && old(query.boolDict.must) != null ==> r.boolDict.must == old(query.boolDict.must)
  {
    r := new Query(query.boolDict, query.rest);
    if r.boolDict == null {
      var b := new BoolDict(null, map[]);
      r.boolDict := b;
    }
    var b := r.boolDict;
    if b.must == null {
      var m := new MustList([]);
      b.must := m;
    }
    var m := b.must;
    m.items := m.items + [MatchId(id)];
  }

  // ------------------------------------------------------------------ user rules

  /** the fields of a user rule this script reads; `query` is its
    * `query_string` once parsed */
  datatype UserRule = UserRule(jobType: string, ruleName: string, query: QueryDoc)

  /** a hit of the `user_rules-grq` query: the rule is its `_source` */
  datatype RuleHit = RuleHit(source: UserRule)

  /** `get_user_rules`: the `_source` of every hit, in order */
  method GetUserRules(results: seq<RuleHit>) returns (rules: seq<UserRule>)
    ensures |rules| == |results|
    ensures forall i :: 0 <= i < |results| ==> rules[i] == results[i].source
  {
    rules := [];
    for i := 0 to |results|
      invariant |rules| == i
      invariant forall j :: 0 <= j < i ==> rules[j] == results[j].source
    {
      rules := rules + [results[i].source];
    }
  }

  const NotifyJob := "hysds-io-send_notify_msg"

  /** the rule sends CMR notifications for the dataset type `ds` */
  predicate SendsNotify(rule: UserRule, ds: string)
  {
    Contains(rule.jobType, NotifyJob) && EndsWith(rule.ruleName, ds)
  }

  /** the first rule that sends notifications for `ds` */
  function FirstRule(rules: seq<UserRule>, ds: string): Option<UserRule>
  {
    if rules == [] then None
    else if SendsNotify(rules[0], ds) then Some(rules[0])
    else FirstRule(rules[1..], ds)
  }

  /** `FirstRule` finds a qualifying rule exactly when there is one, and it is
    * the earliest */
  lemma {:induction false} FirstRuleSpec(rules: seq<UserRule>, ds: string)
    ensures FirstRule(rules, ds).None? <==> forall i :: 0 <= i < |rules| ==> !SendsNotify(rules[i], ds)
    ensures FirstRule(rules, ds).Some? ==>
      exists i :: (0 <= i < |rules| && rules[i] == FirstRule(rules, ds).value
        && SendsNotify(rules[i], ds) && forall j :: 0 <= j < i ==> !SendsNotify(rules[j], ds))
  {
    if rules != [] && !SendsNotify(rules[0], ds) {
      var tail := rules[1..];
      FirstRuleSpec(tail, ds);
      if FirstRule(tail, ds).Some? {
        var i :| 0 <= i < |tail| && tail[i] == FirstRule(tail, ds).value
          && SendsNotify(tail[i], ds) && forall j :: 0 <= j < i ==> !SendsNotify(tail[j], ds);
        assert rules[i + 1] == tail[i];
        forall j | 0 <= j < i + 1 ensures !SendsNotify(rules[j], ds) {
          if j > 0 { assert rules[j] == tail[j - 1]; }
        }
      } else {
        forall i | 0 <= i < |rules| ensures !SendsNotify(rules[i], ds) {
          if i > 0 { assert rules[i] == tail[i - 1]; }
        }
      }
    } else if rules != [] {
      assert rules[0] == FirstRule(rules, ds).value;
    }
  }

  function NoRuleMessage(ds: string): string
  {
    "No user rules found for dataset: " + ds
  }

  /** `get_user_rule_by_ds` over the rules `get_user_rules` returned: the first
    * rule whose job type contains `hysds-io-send_notify_msg` and whose name ends
    * with `ds`, else the exception's message */
  method GetUserRuleByDs(rules: seq<UserRule>, ds: string) returns (r: Result<UserRule, string>)
    ensures FirstRule(rules, ds).Some? ==> r == Ok(FirstRule(rules, ds).value)
    ensures FirstRule(rules, ds).None? ==> r == Err(NoRuleMessage(ds))
  {
    var i := 0;
    while i < |rules|
      invariant i <= |rules|
      invariant FirstRule(rules, ds) == FirstRule(rules[i..], ds)
    {
      if SendsNotify(rules[i], ds) {
        return Ok(rules[i]);
      }
      assert rules[i..][1..] == rules[i + 1..];
      i := i + 1;
    }
    return Err(NoRuleMessage(ds));
  }

  // -------------------------------------------------------------------- job name

  /** index of the first occurrence of `p` in `s` at or after `from`, if any */
  function FindFrom(s: string, p: string, from: nat): (r: Option<nat>)
    decreases |s| - from
    ensures r.Some? ==> from <= r.value && OccursAt(s, p, r.value)
  {
    if from + |p| > |s| then None
    else if OccursAt(s, p, from) then Some(from)
    else FindFrom(s, p, from + 1)
  }

  /** `s.replace(p, "", 1)`: `s` with its first occurrence of `p` cut out */
  function RemoveFirst(s: string, p: string): string
  {
    match FindFrom(s, p, 0)
    case None => s
    case Some(i) => s[..i] + s[i + |p|..]
  }

  const IoPrefix := "hysds-io-"

  /** the job type with a leading `hysds-io-` removed once */
  function JobTypeName(jobType: string): string
  {
    if StartsWith(jobType, IoPrefix) then RemoveFirst(jobType, IoPrefix) else jobType
  }

  /** the first occurrence of the prefix is the prefix itself, so exactly the
    * leading `hysds-io-` goes, and a job type without it is kept */
  lemma {:induction false} JobTypeNameSpec(jobType: string)
    ensures StartsWith(jobType, IoPrefix) ==> JobTypeName(jobType) == jobType[|IoPrefix|..]
    ensures !StartsWith(jobType, IoPrefix) ==> JobTypeName(jobType) == jobType
    ensures JobTypeName(IoPrefix + jobType) == jobType
  {
    if StartsWith(jobType, IoPrefix) {
      assert OccursAt(jobType, IoPrefix, 0);
    }
    var t := IoPrefix + jobType;
    assert t[..|IoPrefix|] == IoPrefix;
    assert OccursAt(t, IoPrefix, 0);
    assert t[|IoPrefix|..] == jobType;
  }

  /** `job-{c0}__{c1}-{id}` from the first two `:`-fields of the job type;
    * `None` where indexing the second field raises */
  function JobName(jobType: string, id: string): Option<string>
  {
    var c := Split(JobTypeName(jobType), ':');
    if |c| < 2 then None else Some("job-" + c[0] + "__" + c[1] + "-" + id)
  }

  /** a string splits into at least two fields exactly when it holds the separator */
  lemma {:induction false} SplitFields(s: string, c: char)
    ensures |Split(s, c)| >= 2 <==> c in s
  {
    match FindChar(s, c, 0)
    case None =>
      assert forall k :: 0 <= k < |s| ==> s[k] != c;
    case Some(i) =>
      assert |Split(s, c)| == 1 + |Split(s[i + 1..], c)|;
  }

  /** there is a job name exactly when the job type, its prefix removed, has a
    * `:`; for `hysds-io-<a>:<b>` it is `job-<a>__<b>-<id>` */
  lemma {:induction false} JobNameSpec(jobType: string, id: string)
    ensures JobName(jobType, id).Some? <==> ':' in JobTypeName(jobType)
  {
    SplitFields(JobTypeName(jobType), ':');
  }

  lemma {:induction false} JobNameOf(a: string, b: string, id: string)
    requires ':' !in a && ':' !in b
    ensures JobName(IoPrefix + a + ":" + b, id) == Some("job-" + a + "__" + b + "-" + id)
  {
    assert IoPrefix + a + ":" + b == IoPrefix + (a + ":" + b);
    JobTypeNameSpec(a + ":" + b);
    SplitPair(a, b, ':');
  }

  // ------------------------------------------------------------------ submission

  /** a GRQ hit, by its `_id`; the rest of the document goes to `submit_mozart_job` */
  datatype Hit = Hit(id: string)

  /** the counters and id lists of `job_submission_accountability` */
  datatype Accounting = Accounting(succeeded: nat, failed: nat, succeededIds: seq<string>, failedIds: seq<string>)

  /** one submission of `id`, successful or not, counted */
  function Recorded(a: Accounting, ok: bool, id: string): Accounting
  {
    if ok then a.(succeeded := a.succeeded + 1, succeededIds := a.succeededIds + [id])
    else a.(failed := a.failed + 1, failedIds := a.failedIds + [id])
  }

  /** `job_submission_accountability`, updated in place by the main loop */
  class Accountability {
    var succeeded: nat
    var failed: nat
    var succeededIds: seq<string>
    var failedIds: seq<string>

    constructor ()
      ensures Value() == Accounting(0, 0, [], [])
    {
      succeeded, failed, succeededIds, failedIds := 0, 0, [], [];
    }

    function Value(): Accounting
      reads this
    {
      Accounting(succeeded, failed, succeededIds, failedIds)
    }

    /** the `try` branch's increment and append, or the `except` branch's */
    method Record(ok: bool, id: string)
      modifies this
      ensures Value() == Recorded(old(Value()), ok, id)
    {
      if ok {
        succeeded := succeeded + 1;
        succeededIds := succeededIds + [id];
      } else {
        failed := failed + 1;
        failedIds := failedIds + [id];
      }
    }
  }

  /** the GRQ index searched for the dataset type */
  function IndexName(ds: string): string
  {
    "grq_v1.0_" + Lower(ds) + "-*"
  }

  /** the rule as submitted: its name tagged `manual-` */
  function Manual(rule: UserRule): UserRule
  {
    rule.(ruleName := "manual-" + rule.ruleName)
  }

  /** a line of the products file with the newlines at either end removed */
  function ProductId(line: string): (r: string)
    ensures r != [] ==> r[0] != '\n' && r[|r| - 1] != '\n'
  {
    StripBy(line, c => c == '\n')
  }

  /** a line as `readlines` gives it yields the id before its newline */
  lemma {:induction false} ProductIdOfLine(id: string)
    requires '\n' !in id
    ensures ProductId(id + "\n") == id
  {
    var s := id + "\n";
    var drop := (c: char) => c == '\n';
    if id != [] {
      assert s[0] == id[0];
      assert StripLeftBy(s, drop) == s;
      assert s[..|s| - 1] == id;
      assert StripRightBy(id, drop) == id;
    } else {
      assert s[1..] == [];
    }
  }

  /** `[p.strip('\n') for p in f.readlines()]` */
  function ProductIds(lines: seq<string>): (r: seq<string>)
    ensures |r| == |lines| && forall i :: 0 <= i < |lines| ==> r[i] == ProductId(lines[i])
  {
    seq(|lines|, i requires 0 <= i < |lines| => ProductId(lines[i]))
  }

  /** what one product id leads to: `None` when the search does not return
    * exactly one document, else whether its submission succeeded and its id.
    * A job type without a second `:`-field fails before `submit` is called */
  function Outcome(rule: UserRule, ds: string, product: string,
                   search: (string, QueryDoc) -> seq<Hit>, submit: (Hit, UserRule, string) -> bool): Option<(bool, string)>
  {
    var hits := search(IndexName(ds), Updated(rule.query, product));
    if |hits| != 1 then None
    else
      var name := JobName(rule.jobType, hits[0].id);
      Some((name.Some? && submit(hits[0], rule, name.value), hits[0].id))
  }

  /** the accounting after the products, in order */
  function Submitted(rule: UserRule, ds: string, products: seq<string>,
                     search: (string, QueryDoc) -> seq<Hit>, submit: (Hit, UserRule, string) -> bool): Accounting
    decreases |products|
  {
    if products == [] then Accounting(0, 0, [], [])
    else
      var a := Submitted(rule, ds, products[..|products| - 1], search, submit);
      match Outcome(rule, ds, products[|products| - 1], search, submit)
      case None => a
      case Some(o) => Recorded(a, o.0, o.1)
  }

  /** one more product adds its outcome, if any, to the accounting */
  lemma {:induction false} SubmittedNext(rule: UserRule, ds: string, products: seq<string>, i: nat,
                                         search: (string, QueryDoc) -> seq<Hit>, submit: (Hit, UserRule, string) -> bool)
    requires i < |products|
    ensures var a := Submitted(rule, ds, products[..i], search, submit);
      Submitted(rule, ds, products[..i + 1], search, submit) ==
        match Outcome(rule, ds, products[i], search, submit)
        case None => a
        case Some(o) => Recorded(a, o.0, o.1)
  {
    var q := products[..i + 1];
    assert q[..|q| - 1] == products[..i] && q[|q| - 1] == products[i];
  }

  /** the number of products whose search returned exactly one document */
  function Attempted(rule: UserRule, ds: string, products: seq<string>,
                     search: (string, QueryDoc) -> seq<Hit>, submit: (Hit, UserRule, string) -> bool): nat
    decreases |products|
  {
    if products == [] then 0
    else
      Attempted(rule, ds, products[..|products| - 1], search, submit)
        + (if Outcome(rule, ds, products[|products| - 1], search, submit).Some? then 1 else 0)
  }

  /** each counter is the length of its id list, and every product with exactly
    * one document is counted once, as a success or as a failure */
  lemma {:induction false} SubmittedCounts(rule: UserRule, ds: string, products: seq<string>,
                                           search: (string, QueryDoc) -> seq<Hit>, submit: (Hit, UserRule, string) -> bool)
    ensures var a := Submitted(rule, ds, products, search, submit);
      && a.succeeded == |a.succeededIds| && a.failed == |a.failedIds|
      && a.succeeded + a.failed == Attempted(rule, ds, products, search, submit)
    decreases |products|
  {
    if products != [] {
      SubmittedCounts(rule, ds, products[..|products| - 1], search, submit);
    }
  }

  /** every listed id is the single document of some product, in the list its
    * submission's result calls for */
  lemma {:induction false} SubmittedIds(rule: UserRule, ds: string, products: seq<string>,
                                        search: (string, QueryDoc) -> seq<Hit>, submit: (Hit, UserRule, string) -> bool)
    ensures var a := Submitted(rule, ds, products, search, submit);
      && (forall id :: id in a.succeededIds ==> exists p :: p in products && Outcome(rule, ds, p, search, submit) == Some((true, id)))
      && (forall id :: id in a.failedIds ==> exists p :: p in products && Outcome(rule, ds, p, search, submit) == Some((false, id)))
    decreases |products|
  {
    if products != [] {
      var init, last := products[..|products| - 1], products[|products| - 1];
      SubmittedIds(rule, ds, init, search, submit);
      var a := Submitted(rule, ds, products, search, submit);
      forall id | id in a.succeededIds
        ensures exists p :: p in products && Outcome(rule, ds, p, search, submit) == Some((true, id))
      {
        if id in Submitted(rule, ds, init, search, submit).succeededIds {
          var p :| p in init && Outcome(rule, ds, p, search, submit) == Some((true, id));
          assert p in products;
        } else {
          assert last in products;
        }
      }
      forall id | id in a.failedIds
        ensures exists p :: p in products && Outcome(rule, ds, p, search, submit) == Some((false, id))
      {
        if id in Submitted(rule, ds, init, search, submit).failedIds {
          var p :| p in init && Outcome(rule, ds, p, search, submit) == Some((false, id));
          assert p in products;
        } else {
          assert last in products;
        }
      }
    }
  }

  /** a job type whose name part has no `:` makes every attempt fail */
  lemma {:induction false} NoJobNameNoSuccess(rule: UserRule, ds: string, products: seq<string>,
                                              search: (string, QueryDoc) -> seq<Hit>, submit: (Hit, UserRule, string) -> bool)
    requires ':' !in JobTypeName(rule.jobType)
    ensures Submitted(rule, ds, products, search, submit).succeededIds == []
    decreases |products|
  {
    if products != [] {
      NoJobNameNoSuccess(rule, ds, products[..|products| - 1], search, submit);
      var hits := search(IndexName(ds), Updated(rule.query, products[|products| - 1]));
      if |hits| == 1 {
        JobNameSpec(rule.jobType, hits[0].id);
      }
    }
  }

  /** the whole run: the rule lookup, then the accounting over the product ids */
  function Run(rules: seq<UserRule>, ds: string, lines: seq<string>,
               search: (string, QueryDoc) -> seq<Hit>, submit: (Hit, UserRule, string) -> bool): Result<Accounting, string>
  {
    match FirstRule(rules, ds)
    case None => Err(NoRuleMessage(ds))
    case Some(rule) => Ok(Submitted(Manual(rule), ds, ProductIds(lines), search, submit))
  }

  /** the script's main block over the rules `get_user_rules` returned and the
    * lines of the products file: each product's query is loaded afresh,
    * narrowed to the product, and searched; a product with exactly one
    * document is submitted under its job name and counted */
  method SubmitAll(rules: seq<UserRule>, ds: string, lines: seq<string>,
                   search: (string, QueryDoc) -> seq<Hit>, submit: (Hit, UserRule, string) -> bool)
    returns (r: Result<Accounting, string>)
    ensures r == Run(rules, ds, lines, search, submit)
  {
    var found := GetUserRuleByDs(rules, ds);
    if found.Err? {
      return Err(found.error);
    }
    var rule := Manual(found.value);
    var products := ProductIds(lines);
    var acc := new Accountability();
    for i := 0 to |products|
      invariant acc.Value() == Submitted(rule, ds, products[..i], search, submit)
    {
      var o := Attempt(rule, ds, products[i], search, submit);
      SubmittedNext(rule, ds, products, i, search, submit);
      if o.Some? {
        acc.Record(o.value.0, o.value.1);
      }
    }
    assert products[..|products|] == products;
    r := Ok(acc.Value());
  }

  /** the loop body for one product: its query loaded afresh and narrowed to it,
    * the search, and, with exactly one document, the submission under the job
    * name (the inner loop runs once) */
  method Attempt(rule: UserRule, ds: string, product: string,
                 search: (string, QueryDoc) -> seq<Hit>, submit: (Hit, UserRule, string) -> bool)
    returns (o: Option<(bool, string)>)
    ensures o == Outcome(rule, ds, product, search, submit)
  {
    var query := Load(rule.query);
    var updated := UpdateUserRuleQuery(query, product);
    var hits := search(IndexName(ds), updated.Doc());
    if |hits| != 1 {
      return None;
    }
    var name := JobName(rule.jobType, hits[0].id);
    var ok := name.Some? && submit(hits[0], rule, name.value);
    o := Some((ok, hits[0].id));
  }
}
