/** `slc_granules_to_bursts.py`: the bursts of each SLC granule, read from the
  * CSV export of burst queries, and the granules that do not have the full
  * 27 bursts. A row is its list of fields: the burst id, the time and the SLC
  * granule id. */
module SlcBursts {
  import opened Base

  /** the number of bursts a full SLC granule has */
  const FullBursts := 27

  /** the `defaultdict(set)` of the script: its keys in insertion order and the map */
  datatype Groups = Groups(order: seq<string>, bursts: map<string, set<string>>)

  /** what reading the rows can raise: `row[2]` on a row of fewer than 3 fields */
  datatype Raised = MissingColumn

  predicate Wide(rows: seq<seq<string>>) { forall i :: 0 <= i < |rows| ==> |rows[i]| >= 3 }

  /** `slc_granules_to_bursts[row[2]].add(row[0])` */
  function Add(g: Groups, row: seq<string>): Groups
    requires |row| >= 3
  {
    var key := row[2];
    if key in g.bursts then Groups(g.order, g.bursts[key := g.bursts[key] + {row[0]}])
    else Groups(g.order + [key], g.bursts[key := {row[0]}])
  }

  /** the dictionary after the rows, in order */
  function Group(rows: seq<seq<string>>): Groups
    requires Wide(rows)
    decreases |rows|
  {
    if rows == [] then Groups([], map[])
    else Add(Group(rows[..|rows| - 1]), rows[|rows| - 1])
  }

  /** the bursts of the rows naming the granule `key` */
  ghost function BurstsOf(rows: seq<seq<string>>, key: string): set<string>
    requires Wide(rows)
  {
    set i | 0 <= i < |rows| && rows[i][2] == key :: rows[i][0]
  }

  /** the keys, listed once each in insertion order, are the map's keys */
  ghost predicate GroupsOk(g: Groups)
  {
    Distinct(g.order) && forall k :: k in g.order <==> k in g.bursts
  }

  lemma {:induction false} GroupOk(rows: seq<seq<string>>)
    requires Wide(rows)
    ensures GroupsOk(Group(rows))
    decreases |rows|
  {
    if rows != [] {
      var g := Group(rows[..|rows| - 1]);
      GroupOk(rows[..|rows| - 1]);
      var key := rows[|rows| - 1][2];
      if key !in g.bursts {
        var o := g.order + [key];
        forall i, j | 0 <= i < j < |o| ensures o[i] != o[j] {
          if j == |o| - 1 {
            assert o[i] in g.order;
          }
        }
      }
    }
  }

  /** a granule is a key exactly when some row names it, and its set holds
    * exactly the bursts of those rows, each once however often it repeats */
  lemma {:induction false} GroupSpec(rows: seq<seq<string>>, key: string)
    requires Wide(rows)
    ensures key in Group(rows).bursts <==> exists i :: 0 <= i < |rows| && rows[i][2] == key
    ensures key in Group(rows).bursts ==> Group(rows).bursts[key] == BurstsOf(rows, key)
    decreases |rows|
  {
    if rows != [] {
      var init, row := rows[..|rows| - 1], rows[|rows| - 1];
      GroupSpec(init, key);
      assert forall i :: 0 <= i < |init| ==> init[i] == rows[i];
      if exists i :: 0 <= i < |rows| && rows[i][2] == key {
        var i :| 0 <= i < |rows| && rows[i][2] == key;
        if i < |init| {
          assert init[i][2] == key;
        }
      }
      BurstsOfSnoc(rows, key);
      if key in Group(rows).bursts && key !in Group(init).bursts {
        assert BurstsOf(init, key) == {};
      }
    }
  }

  lemma {:induction false} BurstsOfSnoc(rows: seq<seq<string>>, key: string)
    requires rows != [] && Wide(rows)
    ensures var init, row := rows[..|rows| - 1], rows[|rows| - 1];
      BurstsOf(rows, key) == BurstsOf(init, key) + (if row[2] == key then {row[0]} else {})
  {
    var init, row := rows[..|rows| - 1], rows[|rows| - 1];
    forall b | b in BurstsOf(rows, key) ensures b in BurstsOf(init, key) + (if row[2] == key then {row[0]} else {}) {
      var i :| 0 <= i < |rows| && rows[i][2] == key && rows[i][0] == b;
      if i < |init| {
        assert init[i][2] == key && init[i][0] == b;
      }
    }
    forall b | b in BurstsOf(init, key) ensures b in BurstsOf(rows, key) {
      var i :| 0 <= i < |init| && init[i][2] == key && init[i][0] == b;
      assert rows[i] == init[i];
    }
  }

  /** `map_slc_granules_to_bursts`: each row's burst added to its granule's
    * set; any row of fewer than 3 fields raises */
  method MapSlcGranulesToBursts(rows: seq<seq<string>>) returns (r: Result<Groups, Raised>)
    ensures r.Err? <==> !Wide(rows)
    ensures r.Ok? ==> Wide(rows) && r.value == Group(rows)
  {
    var order: seq<string> := [];
    var bursts: map<string, set<string>> := map[];
    for i := 0 to |rows|
      invariant Wide(rows[..i])
      invariant Groups(order, bursts) == Group(rows[..i])
    {
      if |rows[i]| < 3 {
        return Err(MissingColumn);
      }
      assert Wide(rows[..i + 1]) by {
        assert forall j :: 0 <= j < i + 1 ==> rows[..i + 1][j] == rows[j];
      }
      assert rows[..i + 1][..i] == rows[..i];
      var key := rows[i][2];
      if key in bursts {
        bursts := bursts[key := bursts[key] + {rows[i][0]}];
      } else {
        order := order + [key];
        bursts := bursts[key := {rows[i][0]}];
      }
    }
    assert rows[..|rows|] == rows;
    r := Ok(Groups(order, bursts));
  }

  /** the granules, in the dictionary's order, whose set is not of 27 bursts */
  function Odd(g: Groups, keys: seq<string>): seq<string>
    requires forall k :: k in keys ==> k in g.bursts
    decreases |keys|
  {
    if keys == [] then []
    else
      var k := keys[|keys| - 1];
      Odd(g, keys[..|keys| - 1]) + (if |g.bursts[k]| != FullBursts then [k] else [])
  }

  /** the lines printed: each odd granule with its number of bursts */
  function Printed(g: Groups): seq<(string, nat)>
    requires GroupsOk(g)
  {
    var odd := Odd(g, g.order);
    OddSpecAll(g, g.order);
    seq(|odd|, i requires 0 <= i < |odd| => (odd[i], |g.bursts[odd[i]]|))
  }

  lemma {:induction false} OddSpecAll(g: Groups, keys: seq<string>)
    requires forall k :: k in keys ==> k in g.bursts
    ensures forall k :: k in Odd(g, keys) ==> k in keys && k in g.bursts
    decreases |keys|
  {
    if keys != [] {
      OddSpecAll(g, keys[..|keys| - 1]);
    }
  }

  /** a granule is reported exactly when it is a key whose set is not of 27
    * bursts */
  lemma {:induction false} OddSpec(g: Groups, keys: seq<string>, k: string)
    requires forall x :: x in keys ==> x in g.bursts
    ensures k in Odd(g, keys) <==> k in keys && |g.bursts[k]| != FullBursts
    decreases |keys|
  {
    if keys != [] {
      var init := keys[..|keys| - 1];
      OddSpec(g, init, k);
      assert keys == init + [keys[|keys| - 1]];
    }
  }

  lemma {:induction false} OddDistinct(g: Groups, keys: seq<string>)
    requires Distinct(keys) && forall x :: x in keys ==> x in g.bursts
    ensures Distinct(Odd(g, keys))
    decreases |keys|
  {
    if keys != [] {
      var init, k := keys[..|keys| - 1], keys[|keys| - 1];
      OddDistinct(g, init);
      var o := Odd(g, init);
      if |g.bursts[k]| != FullBursts {
        OddSpec(g, init, k);
        assert k !in init;
        var p := o + [k];
        forall i, j | 0 <= i < j < |p| ensures p[i] != p[j] {
          if j == |p| - 1 {
            assert p[i] in o;
          }
        }
      }
    }
  }

  /** the count printed at the end is the number of granules whose set is not
    * of 27 bursts */
  lemma {:induction false} OddCount(g: Groups)
    requires GroupsOk(g)
    ensures |Odd(g, g.order)| == |set k | k in g.bursts && |g.bursts[k]| != FullBursts|
  {
    var odd := Odd(g, g.order);
    OddDistinct(g, g.order);
    ElementsBound(odd);
    forall k ensures k in Elements(odd) <==> k in g.bursts && |g.bursts[k]| != FullBursts {
      OddSpec(g, g.order, k);
    }
    assert Elements(odd) == set k | k in g.bursts && |g.bursts[k]| != FullBursts;
  }

  /** the loop over `m.items()`: each granule without 27 bursts printed with
    * its number of bursts and counted */
  method CountOdd(g: Groups) returns (lines: seq<(string, nat)>, count: nat)
    requires GroupsOk(g)
    ensures lines == Printed(g)
    ensures count == |lines|
  {
    lines := [];
    count := 0;
    ghost var odd: seq<string> := [];
    for i := 0 to |g.order|
      invariant odd == Odd(g, g.order[..i])
      invariant |lines| == |odd| == count
      invariant forall j :: 0 <= j < |odd| ==> odd[j] in g.bursts && lines[j] == (odd[j], |g.bursts[odd[j]]|)
    {
      var key := g.order[i];
      assert g.order[..i + 1][..i] == g.order[..i] && g.order[..i + 1][i] == key;
      if |g.bursts[key]| != FullBursts {
        lines := lines + [(key, |g.bursts[key]|)];
        count := count + 1;
        odd := odd + [key];
      }
    }
    assert g.order[..|g.order|] == g.order;
  }

  /** the whole script: the exception, or the lines printed and the count */
  function Report(rows: seq<seq<string>>): Result<(seq<(string, nat)>, nat), Raised>
  {
    if !Wide(rows) then Err(MissingColumn)
    else
      GroupOk(rows);
      var p := Printed(Group(rows));
      Ok((p, |p|))
  }

  method Run(rows: seq<seq<string>>) returns (r: Result<(seq<(string, nat)>, nat), Raised>)
    ensures r == Report(rows)
  {
    var m := MapSlcGranulesToBursts(rows);
    if m.Err? {
      return Err(MissingColumn);
    }
    GroupOk(rows);
    var lines, count := CountOdd(m.value);
    r := Ok((lines, count));
  }
}
