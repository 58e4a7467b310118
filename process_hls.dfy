/** `process_hls_events/process_hls_from_cmr.py`: the revision events of HLS
  * granules read from a CSV export, gathered per granule, and the time from each
  * granule's initial revision to each later revision written out. Times are
  * integer microseconds; reading a time (`strptime` on the text without its
  * 5-character UTC offset) is the parameter `parse`, and writing a delta
  * (`str` of `total_seconds()`) the parameter `render`. */
module ProcessHlsEvents {
  import opened Base

  // ------------------------------------------------------------------ events

  /** what an `HLSEvents` holds: the time of the initial revision (`201`), if
    * any, and the times of the subsequent revisions (`200`) in arrival order */
  datatype Events = Events(initial: Option<int>, subs: seq<int>)

  /** one row of the export: granule id, time and status */
  datatype Event = Event(id: string, time: int, status: string)

  /** the `event_dict` of the script: its keys in insertion order and the map */
  datatype Log = Log(order: seq<string>, events: map<string, Events>)

  /** what the reading loop can raise */
  datatype Raised =
    | NoHeader           // `next(csvreader)` on an empty file: `StopIteration`
    | MissingColumn      // `row[1]` or `row[2]` on a short row: `IndexError`
    | BadTime(text: string) // `strptime`'s `ValueError`

  /** `date_str[:-5]`: the text without its trailing UTC offset */
  function DropOffset(s: string): string
  {
    if |s| >= 5 then s[..|s| - 5] else ""
  }

  /** one row read as the loop body reads it: `row[1]`, then the time from
    * `row[0]`, then `row[2]` */
  function RowEvent(row: seq<string>, parse: string -> Option<int>): Result<Event, Raised>
  {
    if |row| < 2 then Err(MissingColumn)
    else
      var t := parse(DropOffset(row[0]));
      if t.None? then Err(BadTime(row[0]))
      else if |row| < 3 then Err(MissingColumn)
      else Ok(Event(row[1], t.value, row[2]))
  }

  /** the rows' events, or the error of the first row that raises */
  function Parsed(rows: seq<seq<string>>, parse: string -> Option<int>): Result<seq<Event>, Raised>
    decreases |rows|
  {
    if rows == [] then Ok([])
    else
      match Parsed(rows[..|rows| - 1], parse)
      case Err(e) => Err(e)
      case Ok(es) =>
        match RowEvent(rows[|rows| - 1], parse)
        case Err(e) => Err(e)
        case Ok(x) => Ok(es + [x])
  }

  /** `201` sets the initial revision, overwriting an earlier one; `200` adds a
    * subsequent revision; any other status changes nothing */
  function Apply(ev: Events, status: string, t: int): Events
  {
    if status == "201" then ev.(initial := Some(t))
    else if status == "200" then ev.(subs := ev.subs + [t])
    else ev
  }

  /** one event through `event_dict[id]`, which creates the entry on first use */
  function Ingest(log: Log, x: Event): Log
  {
    var ev := if x.id in log.events then log.events[x.id] else Events(None, []);
    var order := if x.id in log.events then log.order else log.order + [x.id];
    Log(order, log.events[x.id := Apply(ev, x.status, x.time)])
  }

  /** the dictionary after the events, in order */
  function Fold(es: seq<Event>): Log
    decreases |es|
  {
    if es == [] then Log([], map[]) else Ingest(Fold(es[..|es| - 1]), es[|es| - 1])
  }

  /** the file's rows after the header, gathered */
  function ReadLog(file: seq<seq<string>>, parse: string -> Option<int>): Result<Log, Raised>
  {
    if file == [] then Err(NoHeader)
    else
      match Parsed(file[1..], parse)
      case Err(e) => Err(e)
      case Ok(es) => Ok(Fold(es))
  }

  /** the keys, listed once each in insertion order, are the map's keys */
  ghost predicate LogOk(log: Log)
  {
    Distinct(log.order) && forall id :: id in log.order <==> id in log.events
  }

  lemma {:induction false} FoldOk(es: seq<Event>)
    ensures LogOk(Fold(es))
    decreases |es|
  {
    if es != [] {
      var log := Fold(es[..|es| - 1]);
      FoldOk(es[..|es| - 1]);
      var x := es[|es| - 1];
      if x.id !in log.events {
        var o := log.order + [x.id];
        forall i, j | 0 <= i < j < |o| ensures o[i] != o[j] {
          if j == |o| - 1 {
            assert o[i] in log.order;
          }
        }
      }
    }
  }

  /** a granule has an entry exactly when some row names it */
  lemma {:induction false} FoldKeys(es: seq<Event>, id: string)
    ensures id in Fold(es).events <==> exists k :: 0 <= k < |es| && es[k].id == id
    decreases |es|
  {
    if es != [] {
      var init := es[..|es| - 1];
      FoldKeys(init, id);
      if id in Fold(init).events {
        var k :| 0 <= k < |init| && init[k].id == id;
        assert es[k] == init[k];
      }
      if exists k :: 0 <= k < |es| && es[k].id == id {
        var k :| 0 <= k < |es| && es[k].id == id;
        if k < |init| {
          assert init[k] == es[k];
        }
      }
    }
  }

  /** the row is an initial revision of `id` */
  predicate IsInitial(x: Event, id: string) { x.id == id && x.status == "201" }

  /** the initial revision of a granule is the time of its last `201` row: a
    * later `201` overwrites an earlier one, and there is none without one */
  lemma {:induction false} FoldInitial(es: seq<Event>, id: string)
    requires id in Fold(es).events
    ensures Fold(es).events[id].initial.None? <==> forall k :: 0 <= k < |es| ==> !IsInitial(es[k], id)
    ensures Fold(es).events[id].initial.Some? ==>
      (exists k :: 0 <= k < |es| && IsInitial(es[k], id) && es[k].time == Fold(es).events[id].initial.value
         && forall j :: k < j < |es| ==> !IsInitial(es[j], id))
    decreases |es|
  {
    var init, x := es[..|es| - 1], es[|es| - 1];
    var r := Fold(es).events[id].initial;
    InitialStep(es, id);
    if IsInitial(x, id) {
      assert IsInitial(es[|es| - 1], id);
    } else if id in Fold(init).events {
      FoldInitial(init, id);
      forall k | 0 <= k < |init| ensures es[k] == init[k] { }
      if r.Some? {
        var k :| 0 <= k < |init| && IsInitial(init[k], id) && init[k].time == r.value
          && forall j :: k < j < |init| ==> !IsInitial(init[j], id);
        assert es[k] == init[k];
      }
    } else {
      FoldKeys(init, id);
      forall k | 0 <= k < |es| ensures !IsInitial(es[k], id) {
        if k < |init| { assert es[k] == init[k]; }
      }
    }
  }

  lemma {:induction false} InitialStep(es: seq<Event>, id: string)
    requires es != [] && id in Fold(es).events
    ensures var init, x := es[..|es| - 1], es[|es| - 1];
      Fold(es).events[id].initial ==
        if IsInitial(x, id) then Some(x.time)
        else if id in Fold(init).events then Fold(init).events[id].initial
        else None
  {
  }

  /** the times of the `200` rows of `id`, in row order */
  function SubsOf(es: seq<Event>, id: string): seq<int>
    decreases |es|
  {
    if es == [] then []
    else
      var x := es[|es| - 1];
      SubsOf(es[..|es| - 1], id) + (if x.id == id && x.status == "200" then [x.time] else [])
  }

  /** the subsequent revisions of a granule are the times of its `200` rows, in
    * arrival order */
  lemma {:induction false} FoldSubs(es: seq<Event>, id: string)
    requires id in Fold(es).events
    ensures Fold(es).events[id].subs == SubsOf(es, id)
    decreases |es|
  {
    var init, x := es[..|es| - 1], es[|es| - 1];
    if id in Fold(init).events {
      FoldSubs(init, id);
    } else if x.id == id {
      FoldKeys(init, id);
      NoSubs(init, id);
    }
  }

  lemma {:induction false} NoSubs(es: seq<Event>, id: string)
    requires forall k :: 0 <= k < |es| ==> es[k].id != id
    ensures SubsOf(es, id) == []
    decreases |es|
  {
    if es != [] {
      var init := es[..|es| - 1];
      assert forall k :: 0 <= k < |init| ==> init[k] == es[k];
      NoSubs(init, id);
    }
  }

  /** the reading loop: the header skipped, then each row's event gathered
    * into the dictionary, until a row raises */
  method ReadEvents(file: seq<seq<string>>, parse: string -> Option<int>) returns (r: Result<Log, Raised>)
    ensures r == ReadLog(file, parse)
  {
    if file == [] {
      return Err(NoHeader);
    }
    var rows := file[1..];
    var order: seq<string> := [];
    var events: map<string, Events> := map[];
    ghost var es: seq<Event> := [];
    for i := 0 to |rows|
      invariant Parsed(rows[..i], parse) == Ok(es)
      invariant Log(order, events) == Fold(es)
    {
      assert rows[..i + 1][..i] == rows[..i] && rows[..i + 1][i] == rows[i];
      var x := RowEvent(rows[i], parse);
      if x.Err? {
        ParsedSticks(rows, i + 1, parse);
        return Err(x.error);
      }
      var id := x.value.id;
      if id !in events {
        order := order + [id];
      }
      var ev := if id in events then events[id] else Events(None, []);
      events := events[id := Apply(ev, x.value.status, x.value.time)];
      assert (es + [x.value])[..|es|] == es;
      es := es + [x.value];
    }
    assert rows[..|rows|] == rows;
    r := Ok(Log(order, events));
  }

  /** after the first row that raises, later rows change nothing */
  lemma {:induction false} ParsedSticks(rows: seq<seq<string>>, i: nat, parse: string -> Option<int>)
    requires i <= |rows| && Parsed(rows[..i], parse).Err?
    ensures Parsed(rows, parse) == Parsed(rows[..i], parse)
    decreases |rows| - i
  {
    if i < |rows| {
      assert rows[..i + 1][..i] == rows[..i];
      ParsedSticks(rows, i + 1, parse);
    } else {
      assert rows[..i] == rows;
    }
  }

  // ---------------------------------------------------------------- sorting

  predicate Ascending(s: seq<int>) { forall i, j :: 0 <= i < j < |s| ==> s[i] <= s[j] }

  function Insert(s: seq<int>, x: int): (r: seq<int>)
    ensures multiset(r) == multiset(s) + multiset{x}
    decreases |s|
  {
    if s == [] || x <= s[0] then [x] + s
    else
      assert s == [s[0]] + s[1..];
      [s[0]] + Insert(s[1..], x)
  }

  /** `list.sort()` on numbers */
  function SortInts(s: seq<int>): (r: seq<int>)
    ensures multiset(r) == multiset(s)
    decreases |s|
  {
    if s == [] then []
    else
      assert s == s[..|s| - 1] + [s[|s| - 1]];
      Insert(SortInts(s[..|s| - 1]), s[|s| - 1])
  }

  lemma {:induction false} InsertAscending(s: seq<int>, x: int)
    requires Ascending(s)
    ensures Ascending(Insert(s, x))
    decreases |s|
  {
    if s != [] && x > s[0] {
      var t := s[1..];
      assert Ascending(t) by {
        forall i, j | 0 <= i < j < |t| ensures t[i] <= t[j] {
          assert t[i] == s[i + 1] && t[j] == s[j + 1];
        }
      }
      InsertAscending(t, x);
      var r := Insert(t, x);
      assert s[0] <= r[0] by {
        if t != [] && x > t[0] {
          assert r[0] == s[1];
        }
      }
      var q := [s[0]] + r;
      forall i, j | 0 <= i < j < |q| ensures q[i] <= q[j] {
        if i == 0 {
          assert q[j] == r[j - 1] && r[0] <= r[j - 1];
        } else {
          assert q[i] == r[i - 1] && q[j] == r[j - 1];
        }
      }
    }
  }

  lemma {:induction false} SortAscending(s: seq<int>)
    ensures Ascending(SortInts(s))
    decreases |s|
  {
    if s != [] {
      SortAscending(s[..|s| - 1]);
      InsertAscending(SortInts(s[..|s| - 1]), s[|s| - 1]);
    }
  }

  // ----------------------------------------------------------------- output

  /** a row is written only for a granule with an initial revision and at
    * least one subsequent one */
  predicate Writes(ev: Events) { ev.initial.Some? && ev.subs != [] }

  /** `sr - initial_revision` for each subsequent revision, in the given order */
  function Deltas(initial: int, subs: seq<int>): (r: seq<int>)
    ensures |r| == |subs| && forall i :: 0 <= i < |subs| ==> r[i] == subs[i] - initial
  {
    seq(|subs|, i requires 0 <= i < |subs| => subs[i] - initial)
  }

  /** each delta's text followed by `,` */
  function Cells(ds: seq<int>, render: int -> string): string
    decreases |ds|
  {
    if ds == [] then "" else Cells(ds[..|ds| - 1], render) + render(ds[|ds| - 1]) + ","
  }

  /** the output line of a granule: its id, `,`, the cells, a newline */
  function Line(id: string, ev: Events, render: int -> string): string
    requires ev.initial.Some?
  {
    id + "," + Cells(Deltas(ev.initial.value, SortInts(ev.subs)), render) + "\n"
  }

  /** the written deltas are ascending and are the subsequent revisions'
    * distances from the initial one, each once; they may be negative */
  lemma {:induction false} DeltasSpec(ev: Events)
    requires ev.initial.Some?
    ensures var ds := Deltas(ev.initial.value, SortInts(ev.subs));
      && Ascending(ds)
      && multiset(ds) == multiset(Deltas(ev.initial.value, ev.subs))
  {
    var t := ev.initial.value;
    var s := SortInts(ev.subs);
    SortAscending(ev.subs);
    DeltasMultiset(t, s, ev.subs);
  }

  lemma {:induction false} DeltasMultiset(t: int, a: seq<int>, b: seq<int>)
    requires multiset(a) == multiset(b)
    ensures multiset(Deltas(t, a)) == multiset(Deltas(t, b))
  {
    forall v ensures multiset(Deltas(t, a))[v] == multiset(Deltas(t, b))[v] {
      DeltasCount(t, a, v);
      DeltasCount(t, b, v);
    }
  }

  lemma {:induction false} DeltasCount(t: int, a: seq<int>, v: int)
    ensures multiset(Deltas(t, a))[v] == multiset(a)[v + t]
    decreases |a|
  {
    if a != [] {
      var a' := a[..|a| - 1];
      DeltasCount(t, a', v);
      assert a == a' + [a[|a| - 1]];
      assert Deltas(t, a) == Deltas(t, a') + [a[|a| - 1] - t];
    }
  }

  /** a revision earlier than the initial one gives a negative delta */
  lemma {:induction false} NegativeDelta()
    ensures Deltas(10, SortInts([4])) == [-6]
  {
    assert SortInts([4]) == Insert(SortInts([]), 4);
  }

  /** with comma-free renderings, a line holds one `,` after the id and one
    * after each delta, and ends with a newline */
  lemma {:induction false} LineCommas(id: string, ev: Events, render: int -> string)
    requires ev.initial.Some? && ',' !in id
    requires forall d :: ',' !in render(d)
    ensures multiset(Line(id, ev, render))[','] == |ev.subs| + 1
    ensures Line(id, ev, render)[|Line(id, ev, render)| - 1] == '\n'
  {
    var ds := Deltas(ev.initial.value, SortInts(ev.subs));
    var c := Cells(ds, render);
    CellsCommas(ds, render);
    assert |multiset(SortInts(ev.subs))| == |multiset(ev.subs)|;
    assert Line(id, ev, render) == id + "," + c + "\n";
    assert multiset(id + "," + c + "\n") == multiset(id) + multiset(",") + multiset(c) + multiset("\n");
    assert multiset(id)[','] == 0;
  }

  lemma {:induction false} CellsCommas(ds: seq<int>, render: int -> string)
    requires forall d :: ',' !in render(d)
    ensures multiset(Cells(ds, render))[','] == |ds|
    decreases |ds|
  {
    if ds != [] {
      CellsCommas(ds[..|ds| - 1], render);
      assert multiset(render(ds[|ds| - 1]))[','] == 0;
    }
  }

  /** the granules written, in the dictionary's order */
  function Written(log: Log, ids: seq<string>): (r: seq<string>)
    requires forall id :: id in ids ==> id in log.events
    decreases |ids|
  {
    if ids == [] then []
    else
      var id := ids[|ids| - 1];
      Written(log, ids[..|ids| - 1]) + (if Writes(log.events[id]) then [id] else [])
  }

  /** the lines written for `ids` */
  function Lines(log: Log, ids: seq<string>, render: int -> string): seq<string>
    requires forall id :: id in ids ==> id in log.events
    decreases |ids|
  {
    if ids == [] then []
    else
      var id := ids[|ids| - 1];
      Lines(log, ids[..|ids| - 1], render) + (if Writes(log.events[id]) then [Line(id, log.events[id], render)] else [])
  }

  /** a granule is written exactly when it has an initial revision and a
    * subsequent one */
  lemma {:induction false} WrittenSpec(log: Log, ids: seq<string>, id: string)
    requires forall x :: x in ids ==> x in log.events
    ensures id in Written(log, ids) <==> id in ids && Writes(log.events[id])
    decreases |ids|
  {
    if ids != [] {
      var init := ids[..|ids| - 1];
      WrittenSpec(log, init, id);
      assert ids == init + [ids[|ids| - 1]];
    }
  }

  /** the k-th line written is the line of the k-th granule written */
  lemma {:induction false} LinesSpec(log: Log, ids: seq<string>, render: int -> string)
    requires forall x :: x in ids ==> x in log.events
    ensures var w := Written(log, ids);
      |Lines(log, ids, render)| == |w|
      && forall k :: 0 <= k < |w| ==>
           (w[k] in log.events && Writes(log.events[w[k]]) && Lines(log, ids, render)[k] == Line(w[k], log.events[w[k]], render))
    decreases |ids|
  {
    if ids != [] {
      LinesSpec(log, ids[..|ids| - 1], render);
    }
  }

  lemma {:induction false} LinesNext(log: Log, ids: seq<string>, i: nat, render: int -> string)
    requires i < |ids| && forall x :: x in ids ==> x in log.events
    ensures Lines(log, ids[..i + 1], render) == Lines(log, ids[..i], render)
      + (if Writes(log.events[ids[i]]) then [Line(ids[i], log.events[ids[i]], render)] else [])
  {
    assert ids[..i + 1][..i] == ids[..i];
  }

  /** the writing loop: for each granule in the dictionary's order, its
    * subsequent revisions sorted, and a line when it has both kinds */
  method WriteResult(log: Log, render: int -> string) returns (lines: seq<string>)
    requires LogOk(log)
    ensures lines == Lines(log, log.order, render)
  {
    lines := [];
    for i := 0 to |log.order|
      invariant lines == Lines(log, log.order[..i], render)
    {
      var id := log.order[i];
      var ev := log.events[id];
      var subs := SortInts(ev.subs);
      LinesNext(log, log.order, i, render);
      if ev.initial.Some? && |subs| != 0 {
        var line := WriteLine(id, Deltas(ev.initial.value, subs), render);
        lines := lines + [line + "\n"];
      } else {
        assert |subs| == |ev.subs|;
      }
    }
    assert log.order[..|log.order|] == log.order;
  }

  /** one output row before its newline: the id, then each delta and a `,` */
  method WriteLine(id: string, ds: seq<int>, render: int -> string) returns (line: string)
    ensures line == id + "," + Cells(ds, render)
  {
    line := id + ",";
    for j := 0 to |ds|
      invariant line == id + "," + Cells(ds[..j], render)
    {
      assert ds[..j + 1][..j] == ds[..j];
      line := line + render(ds[j]) + ",";
    }
    assert ds[..|ds|] == ds;
  }

  /** the whole script: the lines written, or what the reading raised */
  function Output(file: seq<seq<string>>, parse: string -> Option<int>, render: int -> string): Result<seq<string>, Raised>
  {
    match ReadLog(file, parse)
    case Err(e) => Err(e)
    case Ok(log) =>
      FoldOkLog(file, parse);
      Ok(Lines(log, log.order, render))
  }

  lemma {:induction false} FoldOkLog(file: seq<seq<string>>, parse: string -> Option<int>)
    requires ReadLog(file, parse).Ok?
    ensures LogOk(ReadLog(file, parse).value)
  {
    FoldOk(Parsed(file[1..], parse).value);
  }

  method Run(file: seq<seq<string>>, parse: string -> Option<int>, render: int -> string)
    returns (r: Result<seq<string>, Raised>)
    ensures r == Output(file, parse, render)
  {
    var log := ReadEvents(file, parse);
    if log.Err? {
      return Err(log.error);
    }
    FoldOkLog(file, parse);
    var lines := WriteResult(log.value, render);
    r := Ok(lines);
  }
}
