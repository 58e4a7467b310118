/** `missing_rtc_static_layers/opera_rtc_burst_to_input_safe.py`: for each
  * burst id of a list, within a window of positions, the SLC granule whose
  * footprint covers the burst, searched with up to three attempts, written as
  * one CSV line per granule found. */
module BurstToSafe {
  import opened Base

  /** the first line of the output file */
  const Header := "RTC-S1 Burst ID, SAFE file ID, Absolute Orbit, Relative Orbit, Polygon\n"
  /** the number of requests made for one burst before giving up */
  const MaxAttempts := 3
  /** the window of the script as configured */
  const StartCount := 1
  const StopCount := 1000

  // -------------------------------------------------------------- burst ids

  /** the lines made clean by `clean`, those left empty dropped */
  function Kept(lines: seq<string>, clean: string -> string): seq<string>
    decreases |lines|
  {
    if lines == [] then []
    else
      var t := clean(lines[|lines| - 1]);
      Kept(lines[..|lines| - 1], clean) + (if t != "" then [t] else [])
  }

  /** a text is kept exactly when it is not empty and some line cleans to it */
  lemma {:induction false} KeptSpec(lines: seq<string>, clean: string -> string, x: string)
    ensures x in Kept(lines, clean) <==> x != "" && exists k :: 0 <= k < |lines| && clean(lines[k]) == x
  {
    if x in Kept(lines, clean) {
      KeptFrom(lines, clean, x);
    }
    if x != "" && exists k :: 0 <= k < |lines| && clean(lines[k]) == x {
      var k :| 0 <= k < |lines| && clean(lines[k]) == x;
      KeptHas(lines, clean, k);
    }
  }

  lemma {:induction false} KeptFrom(lines: seq<string>, clean: string -> string, x: string)
    requires x in Kept(lines, clean)
    ensures x != "" && exists k :: 0 <= k < |lines| && clean(lines[k]) == x
    decreases |lines|
  {
    var init := lines[..|lines| - 1];
    if x in Kept(init, clean) {
      KeptFrom(init, clean, x);
      var k :| 0 <= k < |init| && clean(init[k]) == x;
      assert lines[k] == init[k];
    }
  }

  lemma {:induction false} KeptHas(lines: seq<string>, clean: string -> string, k: nat)
    requires k < |lines| && clean(lines[k]) != ""
    ensures clean(lines[k]) in Kept(lines, clean)
    decreases |lines|
  {
    var init := lines[..|lines| - 1];
    if k < |init| {
      KeptHas(init, clean, k);
      assert init[k] == lines[k];
    }
  }

  /** the burst ids of the input file: its lines stripped, blank ones left out */
  function Ids(lines: seq<string>): seq<string>
  {
    Kept(lines, Strip)
  }

  /** an id is listed exactly when it is a non-blank line, stripped */
  lemma {:induction false} IdsSpec(lines: seq<string>, x: string)
    ensures x in Ids(lines) <==> x != "" && exists k :: 0 <= k < |lines| && Strip(lines[k]) == x
  {
    KeptSpec(lines, Strip, x);
  }

  /** the groups of `T(\d{3})-(\d+)-IW(\d)` */
  datatype BurstMatch = BurstMatch(track: string, burst: string, swath: char)

  /** the number of digits of `s` from `i` on */
  function DigitsFrom(s: string, i: nat): (n: nat)
    decreases |s| - i
    ensures i + n <= |s| || n == 0
  {
    if i < |s| && IsDigit(s[i]) then 1 + DigitsFrom(s, i + 1) else 0
  }

  /** `re.match(r"T(\d{3})-(\d+)-IW(\d)", burst_id)`: the pattern at the
    * start of the id, whatever follows it; `\d+` takes every digit, as the
    * `-` after it cannot be a digit */
  function Match(id: string): (r: Option<BurstMatch>)
    ensures r.Some? ==> Groups(r.value)
  {
    if |id| < 5 || id[0] != 'T' || !AllDigits(id[1..4]) || id[4] != '-' then None
    else
      var n := DigitsFrom(id, 5);
      var j := 5 + n;
      if n == 0 || j + 4 > |id| || id[j..j + 3] != "-IW" || !IsDigit(id[j + 3]) then None
      else
        DigitsFromAll(id, 5);
        assert AllDigits(id[5..j]) by {
          forall k | 0 <= k < j - 5 ensures IsDigit(id[5..j][k]) {
            assert id[5..j][k] == id[k + 5];
          }
        }
        Some(BurstMatch(id[1..4], id[5..j], id[j + 3]))
  }

  /** the text the pattern matches, given its groups */
  function Matched(m: BurstMatch): string
  {
    "T" + m.track + "-" + m.burst + "-IW" + [m.swath]
  }

  /** groups the pattern can give: three digits, one digit or more, a digit */
  predicate Groups(m: BurstMatch)
  {
    |m.track| == 3 && AllDigits(m.track) && |m.burst| >= 1 && AllDigits(m.burst) && IsDigit(m.swath)
  }

  lemma {:induction false} DigitsFromRun(s: string, i: nat, m: nat)
    requires i + m <= |s| && forall k :: i <= k < i + m ==> IsDigit(s[k])
    requires i + m == |s| || !IsDigit(s[i + m])
    ensures DigitsFrom(s, i) == m
    decreases m
  {
    if m > 0 {
      DigitsFromRun(s, i + 1, m - 1);
    }
  }

  lemma {:induction false} DigitsFromAll(s: string, i: nat)
    requires i <= |s|
    ensures forall k :: i <= k < i + DigitsFrom(s, i) ==> IsDigit(s[k])
    decreases |s| - i
  {
    if i < |s| && IsDigit(s[i]) {
      DigitsFromAll(s, i + 1);
    }
  }

  /** an id is accepted exactly when it begins with `T`, three digits, `-`,
    * one digit or more, `-IW` and a digit, and the groups are those parts */
  lemma {:induction false} MatchSpec(id: string, m: BurstMatch)
    ensures Match(id) == Some(m) <==> Groups(m) && StartsWith(id, Matched(m))
  {
    if Match(id) == Some(m) {
      MatchSound(id);
    }
    if Groups(m) && StartsWith(id, Matched(m)) {
      MatchComplete(id, m);
    }
  }

  lemma {:induction false} MatchSound(id: string)
    requires Match(id).Some?
    ensures StartsWith(id, Matched(Match(id).value))
  {
    var m := Match(id).value;
    var j := 5 + |m.burst|;
    assert m.track == id[1..4] && m.burst == id[5..j] && m.swath == id[j + 3];
    Concat(id[..j + 4], 1, 4, 5, j, j + 3);
  }

  /** a text cut at five places is the concatenation of its six slices */
  lemma {:induction false} Concat(s: string, a: nat, b: nat, c: nat, d: nat, e: nat)
    requires 0 < a <= b <= c <= d <= e < |s|
    ensures s == s[..a] + s[a..b] + s[b..c] + s[c..d] + s[d..e] + s[e..]
  {
    assert s[..a] + s[a..b] == s[..b];
    assert s[..b] + s[b..c] == s[..c];
    assert s[..c] + s[c..d] == s[..d];
    assert s[..d] + s[d..e] == s[..e];
  }

  lemma {:induction false} MatchComplete(id: string, m: BurstMatch)
    requires Groups(m) && StartsWith(id, Matched(m))
    ensures Match(id) == Some(m)
  {
    var p := Matched(m);
    var j := 5 + |m.burst|;
    Slices(p, "T", m.track, "-", m.burst, "-IW", [m.swath]);
    PrefixSlice(id, p, 0, 1);
    PrefixSlice(id, p, 1, 4);
    PrefixSlice(id, p, 4, 5);
    PrefixSlice(id, p, 5, j);
    PrefixSlice(id, p, j, j + 3);
    PrefixSlice(id, p, j + 3, j + 4);
    assert id[0] == id[0..1][0] && id[4] == id[4..5][0];
    assert id[j] == id[j..j + 3][0] && id[j + 3] == id[j + 3..j + 4][0];
    forall k | 5 <= k < j ensures IsDigit(id[k]) {
      assert id[k] == id[5..j][k - 5];
    }
    DigitsFromRun(id, 5, |m.burst|);
  }

  /** a slice within the prefix an id starts with */
  lemma {:induction false} PrefixSlice(id: string, p: string, a: nat, b: nat)
    requires StartsWith(id, p) && a <= b <= |p|
    ensures id[a..b] == p[a..b]
  {
    forall k | a <= k < b ensures id[k] == p[k] {
      assert p[k] == id[..|p|][k];
    }
  }

  /** the `k`-th characters of two texts, read in their slices `[a..b]` */
  lemma {:induction false} PieceChar(p: string, q: string, a: nat, b: nat, k: nat)
    requires a <= k < b <= |p| && b <= |q|
    ensures p[k] == p[a..b][k - a] && q[k] == q[a..b][k - a]
  {
  }

  /** the slices of a concatenation of six texts */
  lemma {:induction false} Slices(p: string, a: string, b: string, c: string, d: string, e: string, f: string)
    requires p == a + b + c + d + e + f
    ensures var i1, i2, i3 := |a|, |a| + |b|, |a| + |b| + |c|;
      var i4, i5 := i3 + |d|, i3 + |d| + |e|;
      |p| == i5 + |f| && p[..i1] == a && p[i1..i2] == b && p[i2..i3] == c && p[i3..i4] == d && p[i4..i5] == e && p[i5..] == f
  {
  }

  /** `int(match.group(1))`: the track as a number below 1000 */
  function RelativeOrbit(m: BurstMatch): (r: nat)
    requires Groups(m)
    ensures r < 1000 && ParseInt(m.track) == Some(r as int)
  {
    ParseIntDigits(m.track);
    TrackBelow(m.track);
    NatOf(m.track)
  }

  lemma {:induction false} TrackBelow(t: string)
    requires |t| == 3 && AllDigits(t)
    ensures NatOf(t) < 1000
  {
    var a, b := t[..1], t[..2];
    assert a[..0] == [] && b[..1] == a && t[..2] == b;
    assert NatOf(a) == DigitValue(t[0]) < 10;
    assert NatOf(b) == 10 * NatOf(a) + DigitValue(t[1]) < 100;
    assert NatOf(t) == 10 * NatOf(b) + DigitValue(t[2]);
  }

  /** `burst_id.lower().replace('-', '_')`: the key of the burst in the grid */
  function Key(id: string): string
  {
    ReplaceChar(Lower(id), '-', '_')
  }

  /** the key of an accepted id begins with `t`, the track, `_`, the burst
    * number, `_iw` and the swath digit, and has the id's length */
  lemma {:induction false} KeySpec(id: string, m: BurstMatch)
    requires Match(id) == Some(m)
    ensures |Key(id)| == |id| && '-' !in Key(id)
    ensures StartsWith(Key(id), KeyPrefix(m))
  {
    MatchSpec(id, m);
    var p, q := Matched(m), KeyPrefix(m);
    var key := Key(id);
    forall k | 0 <= k < |q| ensures key[k] == q[k] {
      PrefixKeyChar(m, k);
      KeyCharAt(id, k);
      assert id[k] == id[..|p|][k];
    }
    assert key[..|q|] == q;
  }

  /** the character the key has where the id has `c` */
  function KeyChar(c: char): char
  {
    if c == '-' then '_' else if IsUpper(c) then (c as int + 32) as char else c
  }

  lemma {:induction false} KeyCharAt(id: string, k: nat)
    requires k < |id|
    ensures Key(id)[k] == KeyChar(id[k])
  {
    assert Lower(id)[k] == if IsUpper(id[k]) then (id[k] as int + 32) as char else id[k];
  }

  /** the text the key of an accepted id begins with */
  function KeyPrefix(m: BurstMatch): string
  {
    "t" + m.track + "_" + m.burst + "_iw" + [m.swath]
  }

  lemma {:induction false} PrefixKeyChar(m: BurstMatch, k: nat)
    requires Groups(m) && k < |Matched(m)|
    ensures |KeyPrefix(m)| == |Matched(m)| && KeyPrefix(m)[k] == KeyChar(Matched(m)[k])
  {
    var p, q := Matched(m), KeyPrefix(m);
    var j := 5 + |m.burst|;
    Slices(p, "T", m.track, "-", m.burst, "-IW", [m.swath]);
    Slices(q, "t", m.track, "_", m.burst, "_iw", [m.swath]);
    if k < 1 {
      PieceChar(p, q, 0, 1, k);
      assert p[k] == 'T' && q[k] == 't';
    } else if k < 4 {
      PieceChar(p, q, 1, 4, k);
      assert p[k] == q[k] == m.track[k - 1] && IsDigit(p[k]);
    } else if k < 5 {
      PieceChar(p, q, 4, 5, k);
      assert p[k] == '-' && q[k] == '_';
    } else if k < j {
      PieceChar(p, q, 5, j, k);
      assert p[k] == q[k] == m.burst[k - 5] && IsDigit(p[k]);
    } else if k < j + 3 {
      PieceChar(p, q, j, j + 3, k);
      assert p[k] == "-IW"[k - j] && q[k] == "_iw"[k - j];
    } else {
      PieceChar(p, q, j + 3, j + 4, k);
      assert p[k] == q[k] == m.swath && IsDigit(p[k]);
    }
  }

  // --------------------------------------------------------------- searches

  /** the parameters that vary from burst to burst */
  datatype Query = Query(relativeOrbit: nat, polygon: string)

  /** one granule of a reply: its file id and orbits, None where the key is
    * missing */
  datatype Granule = Granule(fileId: Option<string>, absoluteOrbit: Option<string>, relativeOrbit: Option<string>)

  /** the outcome of one request */
  datatype Reply =
    | RequestFailed            // a `RequestException` (no answer, an error status or a body that is not JSON): another attempt
    | NoList                   // `response.json()[0]` raises `IndexError` or `KeyError`
    | Results(granules: seq<Granule>)

  /** what stops the script: the exceptions nothing catches */
  datatype Failure =
    | NoGeometry(id: string)   // `iloc[0]` on no row of the grid
    | BadReply(id: string)     // the reply holds no list of granules
    | MissingKey(id: string)   // `granule[...]` on a missing key

  /** the lines written and, if the script stopped, why */
  datatype Written = Written(lines: seq<string>, failure: Option<Failure>)

  /** the lines of `b` after those of `a`, unless `a` stopped the script */
  function Then(a: Written, b: Written): Written
  {
    if a.failure.Some? then a else Written(a.lines + b.lines, b.failure)
  }

  /** the line written for a granule, None where a key is missing */
  function Row(id: string, polygon: string, g: Granule): Option<string>
  {
    if g.fileId.None? || g.absoluteOrbit.None? || g.relativeOrbit.None? then None
    else Some(id + ", " + g.fileId.value + ", " + g.absoluteOrbit.value + ", " + g.relativeOrbit.value + ", " + polygon + "\n")
  }

  /** the loop over the granules: a line each, up to the first with a missing
    * key */
  function Rows(id: string, polygon: string, gs: seq<Granule>): Written
    decreases |gs|
  {
    if gs == [] then Written([], None)
    else
      var w := Rows(id, polygon, gs[..|gs| - 1]);
      var row := Row(id, polygon, gs[|gs| - 1]);
      Then(w, if row.None? then Written([], Some(MissingKey(id))) else Written([row.value], None))
  }

  /** the granules before the first with a missing key each give their line,
    * in order; the script stops exactly when some granule misses a key, and
    * it stops at the first */
  lemma {:induction false} RowsSpec(id: string, polygon: string, gs: seq<Granule>)
    ensures var w := Rows(id, polygon, gs);
      && |w.lines| <= |gs|
      && (forall k :: 0 <= k < |w.lines| ==> Row(id, polygon, gs[k]) == Some(w.lines[k]))
      && (w.failure.None? <==> forall k :: 0 <= k < |gs| ==> Row(id, polygon, gs[k]).Some?)
      && (w.failure.None? ==> |w.lines| == |gs|)
      && (w.failure.Some? ==> w.failure == Some(MissingKey(id)) && Row(id, polygon, gs[|w.lines|]).None?)
    decreases |gs|
  {
    if gs != [] {
      var init := gs[..|gs| - 1];
      RowsSpec(id, polygon, init);
      forall k | 0 <= k < |init| ensures init[k] == gs[k] { }
    }
  }

  /** the lines of a reply */
  function Answer(id: string, polygon: string, r: Reply): Written
    requires !r.RequestFailed?
  {
    match r
    case NoList => Written([], Some(BadReply(id)))
    case Results(gs) =>
      if gs == [] then Written([id + ", None, None, None, " + polygon + "\n"], None) else Rows(id, polygon, gs)
  }

  /** the retry loop from attempt `attempt` on: a failed request is tried
    * again, up to three requests in all; any other reply ends it */
  function Retry(id: string, q: Query, attempt: nat, reply: (Query, nat) -> Reply): Written
    requires attempt <= MaxAttempts
    decreases MaxAttempts - attempt
  {
    if attempt == MaxAttempts then Written([], None)
    else if reply(q, attempt).RequestFailed? then Retry(id, q, attempt + 1, reply)
    else Answer(id, q.polygon, reply(q, attempt))
  }

  /** the number of requests sent from attempt `attempt` on */
  function Tries(q: Query, attempt: nat, reply: (Query, nat) -> Reply): (n: nat)
    requires attempt <= MaxAttempts
    decreases MaxAttempts - attempt
  {
    if attempt == MaxAttempts then 0
    else if reply(q, attempt).RequestFailed? then 1 + Tries(q, attempt + 1, reply)
    else 1
  }

  /** the first reply that is not a failed request decides the burst's lines,
    * and the requests sent are those up to it */
  lemma {:induction false} RetryAnswers(id: string, q: Query, reply: (Query, nat) -> Reply, from: nat, a: nat)
    requires from <= a < MaxAttempts && !reply(q, a).RequestFailed?
    requires forall b :: from <= b < a ==> reply(q, b).RequestFailed?
    ensures Retry(id, q, from, reply) == Answer(id, q.polygon, reply(q, a))
    ensures Tries(q, from, reply) == a - from + 1
    decreases a - from
  {
    if from < a {
      RetryAnswers(id, q, reply, from + 1, a);
    }
  }

  /** three failed requests write nothing for the burst, and no fourth is
    * sent */
  lemma {:induction false} RetryGivesUp(id: string, q: Query, reply: (Query, nat) -> Reply, from: nat)
    requires from <= MaxAttempts
    requires forall b :: from <= b < MaxAttempts ==> reply(q, b).RequestFailed?
    ensures Retry(id, q, from, reply) == Written([], None)
    ensures Tries(q, from, reply) == MaxAttempts - from
    decreases MaxAttempts - from
  {
    if from < MaxAttempts {
      RetryGivesUp(id, q, reply, from + 1);
    }
  }

  /** the window of counts searched */
  predicate InWindow(count: nat, start: int, stop: int) { start <= count <= stop }

  /** one burst id, the `count`-th of the list: skipped when it does not match
    * or is outside the window, else its footprint looked up and searched */
  function Visit(id: string, count: nat, start: int, stop: int, grid: string -> Option<string>,
    reply: (Query, nat) -> Reply): Written
  {
    match Match(id)
    case None => Written([], None)
    case Some(m) =>
      if !InWindow(count, start, stop) then Written([], None)
      else
        match grid(Key(id))
        case None => Written([], Some(NoGeometry(id)))
        case Some(polygon) => Retry(id, Query(RelativeOrbit(m), polygon), 0, reply)
  }

  /** the loop over the first `n` ids, the `k`-th counted `k + 1` */
  function Visits(ids: seq<string>, n: nat, start: int, stop: int, grid: string -> Option<string>,
    reply: (Query, nat) -> Reply): Written
    requires n <= |ids|
  {
    if n == 0 then Written([], None)
    else Then(Visits(ids, n - 1, start, stop, grid, reply), Visit(ids[n - 1], n, start, stop, grid, reply))
  }

  /** a burst is searched exactly when its id matches and its count is in the
    * window; every line written for it begins with the id */
  lemma {:induction false} VisitSpec(id: string, count: nat, start: int, stop: int, grid: string -> Option<string>,
    reply: (Query, nat) -> Reply)
    ensures Match(id).None? || !InWindow(count, start, stop) ==> Visit(id, count, start, stop, grid, reply) == Written([], None)
    ensures forall l :: l in Visit(id, count, start, stop, grid, reply).lines ==> StartsWith(l, id + ", ")
  {
    if Match(id).Some? && InWindow(count, start, stop) && grid(Key(id)).Some? {
      RetryLines(id, Query(RelativeOrbit(Match(id).value), grid(Key(id)).value), 0, reply);
    }
  }

  lemma {:induction false} RetryLines(id: string, q: Query, from: nat, reply: (Query, nat) -> Reply)
    requires from <= MaxAttempts
    ensures forall l :: l in Retry(id, q, from, reply).lines ==> StartsWith(l, id + ", ")
    decreases MaxAttempts - from
  {
    if from < MaxAttempts {
      if reply(q, from).RequestFailed? {
        RetryLines(id, q, from + 1, reply);
      } else {
        AnswerLines(id, q.polygon, reply(q, from));
      }
    }
  }

  lemma {:induction false} AnswerLines(id: string, polygon: string, r: Reply)
    requires !r.RequestFailed?
    ensures forall l :: l in Answer(id, polygon, r).lines ==> StartsWith(l, id + ", ")
  {
    if r.Results? {
      if r.granules == [] {
        RowPrefix(id, polygon, Granule(Some("None"), Some("None"), Some("None")));
      } else {
        var w := Rows(id, polygon, r.granules);
        RowsSpec(id, polygon, r.granules);
        forall l | l in w.lines ensures StartsWith(l, id + ", ") {
          var k :| 0 <= k < |w.lines| && w.lines[k] == l;
          RowPrefix(id, polygon, r.granules[k]);
        }
      }
    }
  }

  lemma {:induction false} RowPrefix(id: string, polygon: string, g: Granule)
    requires Row(id, polygon, g).Some?
    ensures StartsWith(Row(id, polygon, g).value, id + ", ")
  {
    var l := Row(id, polygon, g).value;
    assert l == (id + ", ") + (g.fileId.value + ", " + g.absoluteOrbit.value + ", " + g.relativeOrbit.value + ", " + polygon + "\n");
  }

  /** once the script stops, later ids write nothing */
  lemma {:induction false} VisitsStop(ids: seq<string>, i: nat, n: nat, start: int, stop: int,
    grid: string -> Option<string>, reply: (Query, nat) -> Reply)
    requires i <= n <= |ids| && Visits(ids, i, start, stop, grid, reply).failure.Some?
    ensures Visits(ids, n, start, stop, grid, reply) == Visits(ids, i, start, stop, grid, reply)
    decreases n - i
  {
    if i < n {
      VisitsStop(ids, i, n - 1, start, stop, grid, reply);
    }
  }

  /** every line written begins with the id of a burst that matches and whose
    * count is in the window */
  lemma {:induction false} VisitsLines(ids: seq<string>, n: nat, start: int, stop: int,
    grid: string -> Option<string>, reply: (Query, nat) -> Reply)
    requires n <= |ids|
    ensures forall l :: l in Visits(ids, n, start, stop, grid, reply).lines ==>
      exists k :: 0 <= k < n && Match(ids[k]).Some? && InWindow(k + 1, start, stop) && StartsWith(l, ids[k] + ", ")
    decreases n
  {
    if n > 0 {
      VisitsLines(ids, n - 1, start, stop, grid, reply);
      var v := Visit(ids[n - 1], n, start, stop, grid, reply);
      VisitSpec(ids[n - 1], n, start, stop, grid, reply);
      var w := Visits(ids, n, start, stop, grid, reply);
      var u := Visits(ids, n - 1, start, stop, grid, reply);
      forall l | l in w.lines
        ensures exists k :: 0 <= k < n && Match(ids[k]).Some? && InWindow(k + 1, start, stop) && StartsWith(l, ids[k] + ", ")
      {
        if l !in u.lines {
          assert l in v.lines;
          assert Match(ids[n - 1]).Some? && InWindow(n, start, stop);
        } else {
          var k :| 0 <= k < n - 1 && Match(ids[k]).Some? && InWindow(k + 1, start, stop) && StartsWith(l, ids[k] + ", ");
        }
      }
    }
  }

  /** the number of bursts among the first `n` that are searched */
  function Searched(ids: seq<string>, n: nat, start: int, stop: int): nat
    requires n <= |ids|
  {
    if n == 0 then 0
    else Searched(ids, n - 1, start, stop) + (if Match(ids[n - 1]).Some? && InWindow(n, start, stop) then 1 else 0)
  }

  /** the counts `1..n` that fall in the window */
  function Overlap(n: nat, start: int, stop: int): nat
  {
    var lo := if start > 1 then start else 1;
    var hi := if stop < n then stop else n;
    if hi >= lo then hi - lo + 1 else 0
  }

  /** the counts searched lie in the window, so at most `stop - start + 1`
    * bursts are searched, however long the list */
  lemma {:induction false} WindowBound(ids: seq<string>, n: nat, start: int, stop: int)
    requires n <= |ids|
    ensures Searched(ids, n, start, stop) <= Overlap(n, start, stop)
    ensures Overlap(n, start, stop) <= if stop >= start then stop - start + 1 else 0
    decreases n
  {
    if n > 0 {
      WindowBound(ids, n - 1, start, stop);
    }
  }

  /** with the window configured, at most 1000 bursts are searched */
  lemma {:induction false} ConfiguredWindow(ids: seq<string>)
    ensures Searched(ids, |ids|, StartCount, StopCount) <= 1000
  {
    WindowBound(ids, |ids|, StartCount, StopCount);
  }

  // ---------------------------------------------------------------- methods

  /** the loop over a reply's granules */
  method WriteRows(id: string, polygon: string, gs: seq<Granule>) returns (w: Written)
    ensures w == Rows(id, polygon, gs)
  {
    w := Written([], None);
    for i := 0 to |gs|
      invariant w == Rows(id, polygon, gs[..i])
      invariant w.failure.None?
    {
      assert gs[..i + 1][..i] == gs[..i] && gs[..i + 1][i] == gs[i];
      var g := gs[i];
      if g.fileId.None? || g.absoluteOrbit.None? || g.relativeOrbit.None? {
        RowsStop(id, polygon, gs, i + 1);
        return Written(w.lines, Some(MissingKey(id)));
      }
      w := Written(w.lines + [id + ", " + g.fileId.value + ", " + g.absoluteOrbit.value + ", " + g.relativeOrbit.value + ", " + polygon + "\n"], None);
    }
    assert gs[..|gs|] == gs;
  }

  lemma {:induction false} RowsStop(id: string, polygon: string, gs: seq<Granule>, i: nat)
    requires i <= |gs| && Rows(id, polygon, gs[..i]).failure.Some?
    ensures Rows(id, polygon, gs) == Rows(id, polygon, gs[..i])
    decreases |gs| - i
  {
    if i < |gs| {
      assert gs[..i + 1][..i] == gs[..i];
      RowsStop(id, polygon, gs, i + 1);
    } else {
      assert gs[..i] == gs;
    }
  }

  /** the retry loop: `attempts` counts the failed requests */
  method Search(id: string, q: Query, reply: (Query, nat) -> Reply) returns (w: Written, requests: nat)
    ensures w == Retry(id, q, 0, reply)
    ensures requests == Tries(q, 0, reply) && requests <= MaxAttempts
  {
    var attempts := 0;
    w := Written([], None);
    requests := 0;
    while attempts < MaxAttempts
      invariant 0 <= attempts <= MaxAttempts && requests == attempts
      invariant Retry(id, q, 0, reply) == Retry(id, q, attempts, reply)
      invariant Tries(q, 0, reply) == attempts + Tries(q, attempts, reply)
    {
      var r := reply(q, attempts);
      requests := requests + 1;
      if !r.RequestFailed? {
        if r.NoList? {
          w := Written([], Some(BadReply(id)));
        } else if r.granules == [] {
          w := Written([id + ", None, None, None, " + q.polygon + "\n"], None);
        } else {
          w := WriteRows(id, q.polygon, r.granules);
        }
        return;
      }
      attempts := attempts + 1;
    }
  }

  /** one more id visited: the loop goes on with its lines, or stops with
    * what the remaining ids would not change */
  lemma {:induction false} VisitsStep(ids: seq<string>, i: nat, lines: seq<string>, v: Written, start: int, stop: int,
    grid: string -> Option<string>, reply: (Query, nat) -> Reply)
    requires i < |ids| && Visits(ids, i, start, stop, grid, reply) == Written(lines, None)
    requires v == Visit(ids[i], i + 1, start, stop, grid, reply)
    ensures v.failure.None? ==> Visits(ids, i + 1, start, stop, grid, reply) == Written(lines + v.lines, None)
    ensures v.failure.Some? ==> Visits(ids, |ids|, start, stop, grid, reply) == Written(lines + v.lines, v.failure)
  {
    assert Visits(ids, i + 1, start, stop, grid, reply) == Written(lines + v.lines, v.failure);
    if v.failure.Some? {
      VisitsStop(ids, i + 1, |ids|, start, stop, grid, reply);
    }
  }

  /** the loop body for one id, the `count`-th */
  method VisitOne(id: string, count: nat, start: int, stop: int, grid: string -> Option<string>,
    reply: (Query, nat) -> Reply) returns (w: Written)
    ensures w == Visit(id, count, start, stop, grid, reply)
  {
    var m := Match(id);
    if m.None? || !(start <= count && count <= stop) {
      return Written([], None);
    }
    var polygon := grid(Key(id));
    if polygon.None? {
      return Written([], Some(NoGeometry(id)));
    }
    var requests;
    w, requests := Search(id, Query(RelativeOrbit(m.value), polygon.value), reply);
  }

  /** the whole script: the header, then each id of the file counted and, in
    * the window, searched; `start` and `stop` are `start_count` and
    * `stop_count` */
  method Run(file: seq<string>, start: int, stop: int, grid: string -> Option<string>, reply: (Query, nat) -> Reply)
    returns (out: seq<string>, failure: Option<Failure>)
    ensures out == [Header] + Visits(Ids(file), |Ids(file)|, start, stop, grid, reply).lines
    ensures failure == Visits(Ids(file), |Ids(file)|, start, stop, grid, reply).failure
  {
    var burstIds := Ids(file);
    var lines: seq<string> := [];
    var count := 0;
    for i := 0 to |burstIds|
      invariant count == i
      invariant Visits(burstIds, i, start, stop, grid, reply) == Written(lines, None)
    {
      count := count + 1;
      var v := VisitOne(burstIds[i], count, start, stop, grid, reply);
      VisitsStep(burstIds, i, lines, v, start, stop, grid, reply);
      lines := lines + v.lines;
      if v.failure.Some? {
        return [Header] + lines, v.failure;
      }
    }
    out, failure := [Header] + lines, None;
  }
}
