/** `mgrs_tile_to_safe_archive/mgrs_tile_to_safe_archive.py`: for each MGRS
  * tile of a fixed table, the UTM zone and EPSG code of its box, a search of
  * the SLC archive for each Sentinel-1 platform over that box, and the
  * records and map features built from the items of the flattened replies. */
module MgrsTiles {
  import opened Base

  /** a JSON value as the search service returns it (numbers are integers
    * here); a dict keeps its keys in insertion order */
  datatype Json =
    | Null
    | Bool(b: bool)
    | Num(n: int)
    | Str(s: string)
    | List(items: seq<Json>)
    | Dict(keys: seq<string>, values: map<string, Json>)

  /** the tiles searched, with their descriptions, in the dict's order */
  const Tiles: seq<(string, string)> := [
    ("11SLT", "Southern California (Los Angeles)"),
    ("15TWL", "Midwest (Minnesota)"),
    ("13SDA", "Colorado (Denver)"),
    ("17RMP", "Florida (Orlando)"),
    ("18SUJ", "Mid-Atlantic (Washington, D.C.)"),
    ("16TDM", "Texas (Dallas)"),
    ("12SVC", "Arizona (Phoenix)"),
    ("10TET", "Oregon (Portland)"),
    ("19TCE", "Northeast (Boston)")
  ]

  const Platforms: seq<string> := ["Sentinel-1A", "Sentinel-1B"]

  /** the keys of an item that a record keeps, in the record's order */
  const ItemKeys: seq<string> := ["fileID", "startTime", "stopTime", "absoluteOrbit", "pathNumber", "frameNumber",
    "beamMode", "polarization", "flightDirection", "lookDirection", "burstCount", "downloadUrl"]

  // ------------------------------------------------------------ flatten

  /** what `for x in v` goes through: a list's items, a dict's keys, a
    * string's characters; None where the value is not iterable */
  function Children(v: Json): (r: Option<seq<Json>>)
    ensures r.None? <==> v.Null? || v.Bool? || v.Num?
  {
    match v
    case List(xs) => Some(xs)
    case Dict(keys, _) => Some(seq(|keys|, i requires 0 <= i < |keys| => Str(keys[i])))
    case Str(s) => Some(seq(|s|, i requires 0 <= i < |s| => Str([s[i]])))
    case _ => None
  }

  /** `flatten`: the items, with every list (an iterable that is neither a
    * dict nor a string) replaced by its own items flattened */
  function Flatten(items: seq<Json>): seq<Json>
    decreases items
  {
    if items == [] then []
    else (match items[0] case List(xs) => Flatten(xs) case _ => [items[0]]) + Flatten(items[1..])
  }

  /** no list is left: every value yielded is a dict, a string or a scalar */
  lemma {:induction false} FlattenLeaves(items: seq<Json>)
    ensures forall k :: 0 <= k < |Flatten(items)| ==> !Flatten(items)[k].List?
    decreases items
  {
    if items != [] {
      var head := match items[0] case List(xs) => Flatten(xs) case _ => [items[0]];
      if items[0].List? {
        FlattenLeaves(items[0].items);
      }
      FlattenLeaves(items[1..]);
      var f := Flatten(items);
      assert f == head + Flatten(items[1..]);
      forall k | 0 <= k < |f| ensures !f[k].List? {
        if k >= |head| {
          assert f[k] == Flatten(items[1..])[k - |head|];
        }
      }
    }
  }

  /** flattening two runs of items is flattening each, left to right */
  lemma {:induction false} FlattenAppend(a: seq<Json>, b: seq<Json>)
    ensures Flatten(a + b) == Flatten(a) + Flatten(b)
    decreases |a|
  {
    if a != [] {
      assert (a + b)[0] == a[0] && (a + b)[1..] == a[1..] + b;
      FlattenAppend(a[1..], b);
    } else {
      assert a + b == b;
    }
  }

  /** items without a list are yielded as they are */
  lemma {:induction false} FlattenFlat(items: seq<Json>)
    requires forall k :: 0 <= k < |items| ==> !items[k].List?
    ensures Flatten(items) == items
    decreases |items|
  {
    if items != [] {
      FlattenFlat(items[1..]);
    }
  }

  /** flattening twice is flattening once */
  lemma {:induction false} FlattenIdempotent(items: seq<Json>)
    ensures Flatten(Flatten(items)) == Flatten(items)
  {
    FlattenLeaves(items);
    FlattenFlat(Flatten(items));
  }

  /** a list nested in another is yielded in its place, in order */
  lemma {:induction false} FlattenNested(a: seq<Json>, xs: seq<Json>, b: seq<Json>)
    ensures Flatten(a + [List(xs)] + b) == Flatten(a) + Flatten(xs) + Flatten(b)
  {
    FlattenAppend(a + [List(xs)], b);
    FlattenAppend(a, [List(xs)]);
    assert Flatten([List(xs)]) == Flatten(xs) + Flatten([]);
  }

  // ------------------------------------------------------- tile geometry

  /** what `get_mgrs_tile_bounds` can raise: both are `ValueError` */
  datatype TileError =
    | BadLength      // the tile is not 5 characters
    | BadTile        // `toLatLon` or `int` of the zone raises

  /** the EPSG code of the UTM zone `zone` in a hemisphere */
  function Epsg(zone: int, north: bool): int
  {
    if north then 32600 + zone else 32700 + zone
  }

  /** the code of the tile's zone and hemisphere: north exactly when the
    * latitude band letter is `N` or later */
  function TileEpsg(tile: string): Option<int>
    requires |tile| == 5
  {
    match ParseInt(tile[..2])
    case None => None
    case Some(zone) => Some(Epsg(zone, tile[2] >= 'N'))
  }

  /** `get_mgrs_tile_bounds`: `locate` is `toLatLon` on the tile's text with
    * `55` appended, and `box` the square of 50 km about that point, drawn in
    * the given UTM projection and given back in longitude and latitude */
  function TileBounds<P, G>(tile: string, locate: string -> Option<P>, box: (P, int) -> G): Result<G, TileError>
  {
    if |tile| != 5 then Err(BadLength)
    else
      match locate(tile + "55")
      case None => Err(BadTile)
      case Some(p) =>
        match TileEpsg(tile)
        case None => Err(BadTile)
        case Some(epsg) => Ok(box(p, epsg))
  }

  /** a tile of the wrong length raises before anything else; otherwise the
    * box is drawn in the projection `32600 + zone` north of the equator and
    * `32700 + zone` south of it, the zone being `int` of the first two
    * characters */
  lemma {:induction false} TileBoundsSpec<P, G>(tile: string, locate: string -> Option<P>, box: (P, int) -> G)
    ensures |tile| != 5 <==> TileBounds(tile, locate, box) == Err(BadLength)
    ensures TileBounds(tile, locate, box).Ok? <==>
      |tile| == 5 && locate(tile + "55").Some? && ParseInt(tile[..2]).Some?
    ensures TileBounds(tile, locate, box).Ok? ==>
      TileBounds(tile, locate, box).value
        == box(locate(tile + "55").value, Epsg(ParseInt(tile[..2]).value, tile[2] >= 'N'))
  {
  }

  /** a tile whose zone is written with two digits gets the zone they denote */
  lemma {:induction false} DigitZone(tile: string)
    requires |tile| == 5 && AllDigits(tile[..2])
    ensures TileEpsg(tile) == Some(Epsg(NatOf(tile[..2]), tile[2] >= 'N'))
    ensures NatOf(tile[..2]) < 100
  {
    ParseIntDigits(tile[..2]);
    var d := tile[..2];
    assert d[..1][..0] == [];
    assert NatOf(d[..1]) < 10;
  }

  /** every tile of the table is in the northern hemisphere, in zones 10 to
    * 19, so its box is drawn in a projection between 32610 and 32619 */
  lemma {:induction false} TableTilesNorth()
    ensures forall k :: 0 <= k < |Tiles| ==>
      (|Tiles[k].0| == 5 && TileEpsg(Tiles[k].0).Some? && 32610 <= TileEpsg(Tiles[k].0).value <= 32619)
  {
    forall k | 0 <= k < |Tiles|
      ensures |Tiles[k].0| == 5 && TileEpsg(Tiles[k].0).Some? && 32610 <= TileEpsg(Tiles[k].0).value <= 32619
    {
      TeenZoneNorth(Tiles[k].0);
    }
  }

  /** a tile `1<d><band>..` with a band letter `N` or later */
  lemma {:induction false} TeenZoneNorth(t: string)
    requires |t| == 5 && t[0] == '1' && IsDigit(t[1]) && t[2] >= 'N'
    ensures TileEpsg(t).Some? && 32610 <= TileEpsg(t).value <= 32619
  {
    var d := t[..2];
    assert AllDigits(d);
    DigitZone(t);
    assert d[..1][..0] == [] && d[..1][0] == '1';
    assert NatOf(d) == 10 + DigitValue(t[1]);
  }

  // ------------------------------------------------------- the search loop

  /** `item.get(key)` on a dict */
  function Get(item: Json, key: string): Option<Json>
    requires item.Dict?
  {
    if key in item.values then Some(item.values[key]) else None
  }

  /** one row of `all_results` */
  datatype Record = Record(tile: string, description: string, platform: string, fields: seq<Option<Json>>)

  /** a GeoJSON feature: the tile's box and the record as properties */
  datatype Feature<G> = Feature(geometry: G, properties: Record)

  /** the status line printed for a tile and a platform */
  datatype Note =
    | Found(tile: string, platform: string, count: nat)
    | NoUsable(tile: string, platform: string)
    | QueryFailed(tile: string, platform: string)
    | TileFailed(tile: string)

  /** `all_results`, `features` and the status lines so far */
  datatype Collected<G> = Collected(results: seq<Record>, features: seq<Feature<G>>, notes: seq<Note>)

  function MakeRecord(tile: string, description: string, platform: string, item: Json): (r: Record)
    requires item.Dict?
    ensures |r.fields| == |ItemKeys| && forall k :: 0 <= k < |ItemKeys| ==> r.fields[k] == Get(item, ItemKeys[k])
  {
    Record(tile, description, platform, seq(|ItemKeys|, k requires 0 <= k < |ItemKeys| => Get(item, ItemKeys[k])))
  }

  /** the records of the dicts among the flattened items, in order */
  function ItemRecords(tile: string, description: string, platform: string, flat: seq<Json>): seq<Record>
    decreases |flat|
  {
    if flat == [] then []
    else
      var x := flat[|flat| - 1];
      ItemRecords(tile, description, platform, flat[..|flat| - 1])
      + (if x.Dict? then [MakeRecord(tile, description, platform, x)] else [])
  }

  /** the number of dicts among the items */
  function DictCount(flat: seq<Json>): nat
  {
    |set k | 0 <= k < |flat| && flat[k].Dict?|
  }

  /** there is one record per dict item, and each record is made of the
    * `k`-th dict item for some `k` */
  lemma {:induction false} ItemRecordsSpec(tile: string, description: string, platform: string, flat: seq<Json>)
    ensures |ItemRecords(tile, description, platform, flat)| == DictCount(flat)
    ensures forall r :: r in ItemRecords(tile, description, platform, flat) ==>
      exists k :: 0 <= k < |flat| && flat[k].Dict? && r == MakeRecord(tile, description, platform, flat[k])
    decreases |flat|
  {
    if flat != [] {
      var init := flat[..|flat| - 1];
      ItemRecordsSpec(tile, description, platform, init);
      var n := |flat| - 1;
      assert (set k | 0 <= k < |flat| && flat[k].Dict?)
        == (set k | 0 <= k < n && init[k].Dict?) + (if flat[n].Dict? then {n} else {});
      forall r | r in ItemRecords(tile, description, platform, flat)
        ensures exists k :: 0 <= k < |flat| && flat[k].Dict? && r == MakeRecord(tile, description, platform, flat[k])
      {
        if r in ItemRecords(tile, description, platform, init) {
          var k :| 0 <= k < |init| && init[k].Dict? && r == MakeRecord(tile, description, platform, init[k]);
          assert flat[k] == init[k];
        } else {
          assert flat[n].Dict? && r == MakeRecord(tile, description, platform, flat[n]);
        }
      }
    }
  }

  /** what one platform's search adds: the records of the dict items of the
    * flattened reply, one feature each, and the status line; a search that
    * raises, or a reply that cannot be iterated, adds only its line */
  function AddPlatform<G>(c: Collected<G>, tile: string, description: string, g: G, platform: string, reply: Option<Json>)
    : Collected<G>
  {
    match if reply.Some? then Children(reply.value) else None
    case None => c.(notes := c.notes + [QueryFailed(tile, platform)])
    case Some(xs) =>
      var recs := ItemRecords(tile, description, platform, Flatten(xs));
      Collected(c.results + recs, c.features + Features(g, recs),
        c.notes + [if |recs| > 0 then Found(tile, platform, |recs|) else NoUsable(tile, platform)])
  }

  function Features<G>(g: G, recs: seq<Record>): (r: seq<Feature<G>>)
    ensures |r| == |recs| && forall k :: 0 <= k < |recs| ==> r[k] == Feature(g, recs[k])
  {
    seq(|recs|, k requires 0 <= k < |recs| => Feature(g, recs[k]))
  }

  /** the loop over the platforms of one tile */
  function AddPlatforms<G>(c: Collected<G>, tile: string, description: string, g: G, platforms: seq<string>,
    search: (G, string) -> Option<Json>): Collected<G>
    decreases |platforms|
  {
    if platforms == [] then c
    else
      var p := platforms[|platforms| - 1];
      AddPlatform(AddPlatforms(c, tile, description, g, platforms[..|platforms| - 1], search), tile, description, g, p, search(g, p))
  }

  /** what one tile adds: its failure line, or the platforms' searches over
    * its box */
  function AddTile<P, G>(c: Collected<G>, tile: string, description: string, platforms: seq<string>,
    locate: string -> Option<P>, box: (P, int) -> G, search: (G, string) -> Option<Json>): Collected<G>
  {
    match TileBounds(tile, locate, box)
    case Err(_) => c.(notes := c.notes + [TileFailed(tile)])
    case Ok(g) => AddPlatforms(c, tile, description, g, platforms, search)
  }

  /** the loop over the tiles */
  function AddTiles<P, G>(tiles: seq<(string, string)>, platforms: seq<string>,
    locate: string -> Option<P>, box: (P, int) -> G, search: (G, string) -> Option<Json>): Collected<G>
    decreases |tiles|
  {
    if tiles == [] then Collected([], [], [])
    else
      var t := tiles[|tiles| - 1];
      AddTile(AddTiles(tiles[..|tiles| - 1], platforms, locate, box, search), t.0, t.1, platforms, locate, box, search)
  }

  /** each feature carries the record at the same place in `all_results` */
  predicate Paired<G>(c: Collected<G>)
  {
    |c.features| == |c.results| && forall k :: 0 <= k < |c.results| ==> c.features[k].properties == c.results[k]
  }

  /** every record names a tile of the list with its description and one of
    * the platforms */
  predicate FromTiles<G>(c: Collected<G>, tiles: seq<(string, string)>, platforms: seq<string>)
  {
    forall r :: r in c.results ==> (r.tile, r.description) in tiles && r.platform in platforms
  }

  lemma {:induction false} AddPlatformKeeps<G>(c: Collected<G>, tile: string, description: string, g: G, platform: string,
    reply: Option<Json>, tiles: seq<(string, string)>, platforms: seq<string>)
    requires Paired(c) && FromTiles(c, tiles, platforms) && (tile, description) in tiles && platform in platforms
    ensures var d := AddPlatform(c, tile, description, g, platform, reply);
      Paired(d) && FromTiles(d, tiles, platforms) && c.results <= d.results
  {
    var d := AddPlatform(c, tile, description, g, platform, reply);
    if reply.Some? && Children(reply.value).Some? {
      var recs := ItemRecords(tile, description, platform, Flatten(Children(reply.value).value));
      ItemRecordsSpec(tile, description, platform, Flatten(Children(reply.value).value));
      assert d.results == c.results + recs;
      forall k | 0 <= k < |d.results| ensures d.features[k].properties == d.results[k] {
        if k >= |c.results| {
          assert d.features[k] == Features(g, recs)[k - |c.results|];
        }
      }
    }
  }

  lemma {:induction false} AddPlatformsKeeps<G>(c: Collected<G>, tile: string, description: string, g: G, ps: seq<string>,
    search: (G, string) -> Option<Json>, tiles: seq<(string, string)>, platforms: seq<string>)
    requires Paired(c) && FromTiles(c, tiles, platforms) && (tile, description) in tiles
    requires forall p :: p in ps ==> p in platforms
    ensures var d := AddPlatforms(c, tile, description, g, ps, search);
      Paired(d) && FromTiles(d, tiles, platforms) && c.results <= d.results
    decreases |ps|
  {
    if ps != [] {
      var init := ps[..|ps| - 1];
      AddPlatformsKeeps(c, tile, description, g, init, search, tiles, platforms);
      var p := ps[|ps| - 1];
      AddPlatformKeeps(AddPlatforms(c, tile, description, g, init, search), tile, description, g, p, search(g, p), tiles, platforms);
    }
  }

  /** `features` runs alongside `all_results`, and every record comes from a
    * tile of the list and one of the platforms */
  lemma {:induction false} AddTilesSpec<P, G>(tiles: seq<(string, string)>, platforms: seq<string>,
    locate: string -> Option<P>, box: (P, int) -> G, search: (G, string) -> Option<Json>)
    ensures var c := AddTiles(tiles, platforms, locate, box, search);
      Paired(c) && FromTiles(c, tiles, platforms)
    decreases |tiles|
  {
    if tiles != [] {
      var init := tiles[..|tiles| - 1];
      var t := tiles[|tiles| - 1];
      var c := AddTiles(init, platforms, locate, box, search);
      AddTilesSpec(init, platforms, locate, box, search);
      assert FromTiles(c, tiles, platforms) by {
        forall r | r in c.results ensures (r.tile, r.description) in tiles {
          assert (r.tile, r.description) in init;
        }
      }
      if TileBounds(t.0, locate, box).Ok? {
        AddPlatformsKeeps(c, t.0, t.1, TileBounds(t.0, locate, box).value, platforms, search, tiles, platforms);
      }
    }
  }

  /** a platform's status line counts exactly the dict items of its reply */
  lemma {:induction false} FoundCount<G>(c: Collected<G>, tile: string, description: string, g: G, platform: string, reply: Json)
    requires Children(reply).Some?
    ensures var d := AddPlatform(c, tile, description, g, platform, Some(reply));
      var n := DictCount(Flatten(Children(reply).value));
      |d.results| == |c.results| + n
      && d.notes == c.notes + [if n > 0 then Found(tile, platform, n) else NoUsable(tile, platform)]
  {
    ItemRecordsSpec(tile, description, platform, Flatten(Children(reply).value));
  }

  /** the loop over the flattened items */
  method CollectItems<G>(c: Collected<G>, tile: string, description: string, g: G, platform: string, flat: seq<Json>)
    returns (d: Collected<G>, count: nat)
    ensures d.results == c.results + ItemRecords(tile, description, platform, flat)
    ensures d.features == c.features + Features(g, ItemRecords(tile, description, platform, flat))
    ensures d.notes == c.notes
    ensures count == |ItemRecords(tile, description, platform, flat)|
  {
    d := c;
    count := 0;
    for i := 0 to |flat|
      invariant d.results == c.results + ItemRecords(tile, description, platform, flat[..i])
      invariant d.features == c.features + Features(g, ItemRecords(tile, description, platform, flat[..i]))
      invariant d.notes == c.notes
      invariant count == |ItemRecords(tile, description, platform, flat[..i])|
    {
      var item := flat[i];
      assert flat[..i + 1][..i] == flat[..i] && flat[..i + 1][i] == item;
      if item.Dict? {
        var record := MakeRecord(tile, description, platform, item);
        d := d.(results := d.results + [record], features := d.features + [Feature(g, record)]);
        count := count + 1;
      }
    }
    assert flat[..|flat|] == flat;
  }

  /** the loop over the platforms of one tile */
  method SearchTile<G>(c: Collected<G>, tile: string, description: string, g: G, platforms: seq<string>,
    search: (G, string) -> Option<Json>) returns (d: Collected<G>)
    ensures d == AddPlatforms(c, tile, description, g, platforms, search)
  {
    d := c;
    for j := 0 to |platforms|
      invariant d == AddPlatforms(c, tile, description, g, platforms[..j], search)
    {
      var platform := platforms[j];
      assert platforms[..j + 1][..j] == platforms[..j] && platforms[..j + 1][j] == platform;
      var results := search(g, platform);
      var items := if results.Some? then Children(results.value) else None;
      if items.None? {
        d := d.(notes := d.notes + [QueryFailed(tile, platform)]);
      } else {
        var count;
        d, count := CollectItems(d, tile, description, g, platform, Flatten(items.value));
        d := d.(notes := d.notes + [if count > 0 then Found(tile, platform, count) else NoUsable(tile, platform)]);
      }
    }
    assert platforms[..|platforms|] == platforms;
  }

  /** the module-level loop over the tiles */
  method SearchTiles<P, G>(tiles: seq<(string, string)>, platforms: seq<string>,
    locate: string -> Option<P>, box: (P, int) -> G, search: (G, string) -> Option<Json>) returns (c: Collected<G>)
    ensures c == AddTiles(tiles, platforms, locate, box, search)
  {
    c := Collected([], [], []);
    for i := 0 to |tiles|
      invariant c == AddTiles(tiles[..i], platforms, locate, box, search)
    {
      var (tile, description) := tiles[i];
      assert tiles[..i + 1][..i] == tiles[..i] && tiles[..i + 1][i] == (tile, description);
      var bounds := TileBounds(tile, locate, box);
      if bounds.Err? {
        c := c.(notes := c.notes + [TileFailed(tile)]);
      } else {
        c := SearchTile(c, tile, description, bounds.value, platforms, search);
      }
    }
    assert tiles[..|tiles|] == tiles;
  }
}
