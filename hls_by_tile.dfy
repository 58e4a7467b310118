/** `get_hls_granule_by_tile.py`: the CMR query for the HLS granules of one
  * MGRS tile over a range of days, fetched page by page until the number of
  * hits the first page announces is collected. A reply is given as its items'
  * native ids and its hit count; the pages of the listing are a parameter. */
module HlsByTile {
  import opened Base

  const Endpoint := "https://cmr.earthdata.nasa.gov"
  /** `-s`'s default */
  const DefaultStart := "2014-01-01"
  /** the padding that makes a day an instant of ISO 8601 */
  const DayStart := "T00:00:00Z"
  const DayEnd := "T23:59:59Z"

  /** how the script can fail */
  datatype Failure =
    | PageNotPositive    // the `assert page_number > 0` of `gen_url`
    | EmptyTile          // `tile[0]` on an empty tile: `IndexError`
    | NoNativeId         // `'\n'.join` over a `None` id: `TypeError`
    | ListingEnds(page: nat) // a page the listing does not have is requested

  /** one reply: each item's `meta.native-id` (None where either key is
    * missing) and `hits` */
  datatype Page = Page(items: seq<Option<string>>, hits: int)

  /** the query text of `gen_url` */
  function Url(start: string, end: string, tile: string, page: nat): string
  {
    Endpoint + "/search/granules.umm_json?" + "provider=LPCLOUD" + TileField(tile)
    + "&ShortName=HLSL30&ShortName=HLSS30" + TimeField(start, end) + "&page_size=100"
    + PageField(page)
  }

  function TileField(tile: string): string { "&attribute[]=string,MGRS_TILE_ID," + tile }

  function TimeField(start: string, end: string): string { "&temporal[]=" + start + ", " + end }

  function PageField(page: nat): string { "&page_num" + "=" + NatStr(page) }

  /** `gen_url`: the assertion, then the query */
  function GenUrl(start: string, end: string, tile: string, page: int): (r: Result<string, Failure>)
    ensures r.Err? <==> page <= 0
  {
    if page <= 0 then Err(PageNotPositive) else Ok(Url(start, end, tile, page))
  }

  /** the text after the last `c` of `s` (all of `s` without one) */
  function After(s: string, c: char): (r: string)
    decreases |s|
  {
    if s == [] || s[|s| - 1] == c then [] else After(s[..|s| - 1], c) + [s[|s| - 1]]
  }

  lemma {:induction false} AfterLast(a: string, c: char, b: string)
    requires c !in b
    ensures After(a + [c] + b, c) == b
    decreases |b|
  {
    var s := a + [c] + b;
    if b == [] {
      assert s[|s| - 1] == c;
    } else {
      var i := b[..|b| - 1];
      assert s[..|s| - 1] == a + [c] + i;
      assert c !in i by {
        forall k | 0 <= k < |i| ensures i[k] != c {
          assert i[k] == b[k];
        }
      }
      AfterLast(a, c, i);
      assert b == i + [b[|b| - 1]];
    }
  }

  /** the page number a query asks for: `int` of the text after its last `=` */
  function PageOf(url: string): Option<int>
  {
    ParseInt(After(url, '='))
  }

  /** the query names the tile, the time range and the page, and the page can
    * be read back from its end */
  lemma {:induction false} UrlParts(start: string, end: string, tile: string, page: nat)
    ensures var url := Url(start, end, tile, page);
      && Contains(url, TileField(tile))
      && Contains(url, TimeField(start, end))
      && EndsWith(url, PageField(page))
      && PageOf(url) == Some(page)
  {
    var head := Endpoint + "/search/granules.umm_json?" + "provider=LPCLOUD";
    Layout(head, TileField(tile), "&ShortName=HLSL30&ShortName=HLSS30", TimeField(start, end), "&page_size=100",
      "&page_num", '=', NatStr(page));
    NoCharInDigits(NatStr(page), '=');
    ParseIntStr(page);
  }

  /** where the fields of a text made of six fields lie */
  lemma {:induction false} Layout(h: string, t: string, m: string, w: string, z: string, q: string, c: char, n: string)
    requires c !in n
    ensures var u := h + t + m + w + z + (q + [c] + n);
      && OccursAt(u, t, |h|) && OccursAt(u, w, |h + t + m|) && EndsWith(u, q + [c] + n)
      && After(u, c) == n
  {
    var u := h + t + m + w + z + (q + [c] + n);
    assert u == h + t + (m + w + z + (q + [c] + n));
    assert u == h + t + m + w + (z + (q + [c] + n));
    assert u == (h + t + m + w + z + q) + [c] + n;
    AfterLast(h + t + m + w + z + q, c, n);
  }

  /** different page numbers give different queries */
  lemma {:induction false} UrlPageInjective(start: string, end: string, tile: string, p: nat, q: nat)
    requires Url(start, end, tile, p) == Url(start, end, tile, q)
    ensures p == q
  {
    UrlParts(start, end, tile, p);
    UrlParts(start, end, tile, q);
  }

  /** the `-t` argument with one leading `T` removed */
  function Tile(arg: string): (r: Result<string, Failure>)
  {
    if arg == [] then Err(EmptyTile) else if arg[0] == 'T' then Ok(arg[1..]) else Ok(arg)
  }

  /** only an empty argument raises; a tile written with its `T` loses exactly
    * that `T`, and one written without is kept */
  lemma {:induction false} TileSpec(arg: string)
    ensures Tile(arg).Err? <==> arg == []
    ensures forall t :: arg == "T" + t ==> Tile(arg) == Ok(t)
    ensures arg != [] && arg[0] != 'T' ==> Tile(arg) == Ok(arg)
  {
    forall t | arg == "T" + t ensures Tile(arg) == Ok(t) {
      assert arg[1..] == t;
    }
  }

  /** the start and end of the time range: the first second of the first day
    * and the last second of the last day */
  function StartTime(day: string): string { day + DayStart }

  function EndTime(day: string): string { day + DayEnd }

  lemma {:induction false} LexLtExtend(a: string, b: string, x: string, y: string)
    requires |a| == |b| && LexLt(a, b)
    ensures LexLt(a + x, b + y)
    decreases |a|
  {
    assert (a + x)[0] == a[0] && (b + y)[0] == b[0];
    if a[0] == b[0] {
      assert (a + x)[1..] == a[1..] + x && (b + y)[1..] == b[1..] + y;
      LexLtExtend(a[1..], b[1..], x, y);
    }
  }

  lemma {:induction false} LexLtSamePrefix(d: string, x: string, y: string)
    requires LexLt(x, y)
    ensures LexLt(d + x, d + y)
    decreases |d|
  {
    if d != [] {
      assert (d + x)[0] == d[0] == (d + y)[0];
      assert (d + x)[1..] == d[1..] + x && (d + y)[1..] == d[1..] + y;
      LexLtSamePrefix(d[1..], x, y);
    } else {
      assert d + x == x && d + y == y;
    }
  }

  /** a day's range is not empty, and the ranges of days written alike (as
    * `YYYY-MM-DD`) follow the days' order: the end of an earlier day comes
    * before the start of a later one */
  lemma {:induction false} TimesOrdered(a: string, b: string)
    ensures LexLt(StartTime(a), EndTime(a))
    ensures |a| == |b| && LexLt(a, b) ==> LexLt(EndTime(a), StartTime(b))
  {
    assert DayStart[1] == '0' < '2' == DayEnd[1];
    assert LexLt(DayStart[1..], DayEnd[1..]);
    LexLtSamePrefix(a, DayStart, DayEnd);
    if |a| == |b| && LexLt(a, b) {
      LexLtExtend(a, b, DayEnd, DayStart);
    }
  }

  /** the ids of the first `n` pages, in order */
  function Gathered(pages: seq<Page>, n: nat): seq<Option<string>>
    requires n <= |pages|
  {
    if n == 0 then [] else Gathered(pages, n - 1) + pages[n - 1].items
  }

  /** the number of pages fetched, counting from `n` already fetched: the
    * first count whose ids reach `total`, or the page past the listing */
  function Needed(pages: seq<Page>, total: int, n: nat): (r: Result<nat, Failure>)
    requires 1 <= n <= |pages|
    ensures r.Ok? ==> n <= r.value <= |pages|
    decreases |pages| - n
  {
    if |Gathered(pages, n)| >= total then Ok(n)
    else if n == |pages| then Err(ListingEnds(n + 1))
    else Needed(pages, total, n + 1)
  }

  /** the fetch loop stops at the first page that brings the count to
    * `total`, and runs past the listing exactly when no page does */
  lemma {:induction false} NeededSpec(pages: seq<Page>, total: int, n: nat)
    requires 1 <= n <= |pages|
    ensures Needed(pages, total, n).Ok? ==> var m := Needed(pages, total, n).value;
      n <= m <= |pages| && |Gathered(pages, m)| >= total
      && forall k :: n <= k < m ==> |Gathered(pages, k)| < total
    ensures Needed(pages, total, n).Err? ==>
      (Needed(pages, total, n) == Err(ListingEnds(|pages| + 1)) && forall k :: n <= k <= |pages| ==> |Gathered(pages, k)| < total)
    decreases |pages| - n
  {
    if |Gathered(pages, n)| < total && n < |pages| {
      NeededSpec(pages, total, n + 1);
    }
  }

  /** the granule ids the script collects: the first page's, then further
    * pages' until the first page's `hits` are reached */
  function Granules(pages: seq<Page>): Result<seq<Option<string>>, Failure>
  {
    if pages == [] then Err(ListingEnds(1))
    else
      match Needed(pages, pages[0].hits, 1)
      case Ok(n) => Ok(Gathered(pages, n))
      case Err(e) => Err(e)
  }

  /** the number of queries sent */
  function Requests(pages: seq<Page>): nat
  {
    if pages == [] then 1
    else
      match Needed(pages, pages[0].hits, 1)
      case Ok(n) => n
      case Err(_) => |pages| + 1
  }

  lemma {:induction false} GatheredNext(pages: seq<Page>, n: nat)
    requires n < |pages|
    ensures Gathered(pages, n + 1) == Gathered(pages, n) + pages[n].items
  {
  }

  lemma {:induction false} NeededNext(pages: seq<Page>, total: int, n: nat)
    requires 1 <= n < |pages| && |Gathered(pages, n)| < total
    ensures Needed(pages, total, n) == Needed(pages, total, n + 1)
  {
  }

  /** the main block's page loop: page 1, then the next page while fewer ids
    * than the first page's `hits` are collected; `urls` are the queries sent */
  method FetchGranules(start: string, end: string, tile: string, pages: seq<Page>)
    returns (urls: seq<string>, r: Result<seq<Option<string>>, Failure>)
    ensures r == Granules(pages)
    ensures |urls| == Requests(pages)
    ensures forall k :: 0 <= k < |urls| ==> urls[k] == Url(start, end, tile, k + 1)
  {
    var pageNumber := 1;
    urls := [Url(start, end, tile, pageNumber)];
    if |pages| < pageNumber {
      return urls, Err(ListingEnds(pageNumber));
    }
    var response := pages[pageNumber - 1];
    var granules := response.items;
    var total := response.hits;
    while |granules| < total
      invariant 1 <= pageNumber <= |pages| && total == pages[0].hits
      invariant granules == Gathered(pages, pageNumber)
      invariant Needed(pages, total, 1) == Needed(pages, total, pageNumber)
      invariant |urls| == pageNumber
      invariant forall k :: 0 <= k < |urls| ==> urls[k] == Url(start, end, tile, k + 1)
      decreases |pages| - pageNumber
    {
      pageNumber := pageNumber + 1;
      urls := urls + [Url(start, end, tile, pageNumber)];
      if |pages| < pageNumber {
        return urls, Err(ListingEnds(pageNumber));
      }
      NeededNext(pages, total, pageNumber - 1);
      response := pages[pageNumber - 1];
      granules := granules + response.items;
    }
    r := Ok(granules);
  }

  /** the ids of a list that has no missing one */
  function Present(ids: seq<Option<string>>): (r: Option<seq<string>>)
    ensures r.Some? <==> forall k :: 0 <= k < |ids| ==> ids[k].Some?
    ensures r.Some? ==> |r.value| == |ids| && forall k :: 0 <= k < |ids| ==> r.value[k] == ids[k].value
    decreases |ids|
  {
    if ids == [] then Some([])
    else if ids[|ids| - 1].None? then None
    else
      match Present(ids[..|ids| - 1])
      case None => None
      case Some(p) => Some(p + [ids[|ids| - 1].value])
  }

  /** `print('\n'.join(granules))` */
  function Output(ids: seq<Option<string>>): Result<string, Failure>
  {
    match Present(ids)
    case None => Err(NoNativeId)
    case Some(p) => Ok(Join(p, "\n"))
  }

  /** the printed text splits back, at its newlines, into the ids, when there
    * is at least one and none holds a newline */
  lemma {:induction false} OutputSplits(ids: seq<string>)
    requires ids != [] && forall k :: 0 <= k < |ids| ==> '\n' !in ids[k]
    ensures Split(Join(ids, "\n"), '\n') == ids
    decreases |ids|
  {
    if |ids| == 1 {
      SplitNone(ids[0], '\n');
    } else {
      var rest := ids[1..];
      OutputSplits(rest);
      assert Join(ids, "\n") == ids[0] + ['\n'] + Join(rest, "\n");
      SplitCons(ids[0], Join(rest, "\n"), '\n');
      assert ids == [ids[0]] + rest;
    }
  }

  /** the whole script's outcome: the text printed, or the failure; the
    * replies are the parameter, so the days only shape the queries sent */
  function Script(tileArg: string, pages: seq<Page>): Result<string, Failure>
  {
    match Tile(tileArg)
    case Err(e) => Err(e)
    case Ok(_) =>
      match Granules(pages)
      case Err(e) => Err(e)
      case Ok(ids) => Output(ids)
  }

  /** the main block; `today` is `datetime.now()` as `YYYY-MM-DD`, the default
    * end day */
  method Run(tileArg: string, startArg: Option<string>, endArg: Option<string>, today: string, pages: seq<Page>)
    returns (urls: seq<string>, r: Result<string, Failure>)
    ensures r == Script(tileArg, pages)
    ensures r.Ok? ==> var start := StartTime(if startArg.Some? then startArg.value else DefaultStart);
      var end := EndTime(if endArg.Some? then endArg.value else today);
      |urls| == Requests(pages) && forall k :: 0 <= k < |urls| ==> urls[k] == Url(start, end, Tile(tileArg).value, k + 1)
  {
    urls := [];
    var tile := Tile(tileArg);
    if tile.Err? {
      return urls, Err(EmptyTile);
    }
    var start := StartTime(if startArg.Some? then startArg.value else DefaultStart);
    var end := EndTime(if endArg.Some? then endArg.value else today);
    var granules;
    urls, granules := FetchGranules(start, end, tile.value, pages);
    if granules.Err? {
      return urls, Err(granules.error);
    }
    r := Output(granules.value);
  }
}
