/** `static_layers/StaticLayersValidator.py`: the static-layer bursts that should exist
  * (a CSV listing on GitHub) against the static-layer granules in CMR. The file's text
  * and the CMR titles are parameters; the counts and sets the script logs and writes
  * are returned. */
module StaticLayers {
  import opened Base

  /** the exceptions the validator can raise */
  datatype Raised =
    | BadLine(line: string)    // `ValueError`: a line that is not three comma fields
    | NoBurst(title: string)   // `AttributeError`: a title the burst pattern misses

  // --------------------------------------------------------- configuration

  /** one product's entry of `CONFIG_DATA` */
  datatype Config = Config(collection: string, burstsFile: string, framesFile: string)

  /** `CONFIG_DATA[product]`; None is the `KeyError` */
  function ConfigOf(product: string): (r: Option<Config>)
    ensures r.Some? <==> product == "CSLC-S1" || product == "RTC-S1"
    ensures r.Some? ==> EndsWith(r.value.collection, "-S1-STATIC_V1")
  {
    if product == "CSLC-S1" then
      Some(Config("OPERA_L2_CSLC-S1-STATIC_V1", "cslc_query_bursts_2016-05-01_to_2023-09.csv",
                  "cslc_query_frames_2016-05-01_to_2023-09.csv"))
    else if product == "RTC-S1" then
      Some(Config("OPERA_L2_RTC-S1-STATIC_V1", "rtc_query_bursts_2016-05-01_to_2023-09.csv",
                  "rtc_query_frames_2016-05-01_to_2023-09.csv"))
    else None
  }

  // ------------------------------------------------------ the bursts file

  /** `burst_id_lc.upper().replace("_", "-")` */
  function BurstKey(lc: string): (k: string)
    ensures |k| == |lc| && '_' !in k
  {
    ReplaceChar(Upper(lc), '_', '-')
  }

  /** the file's spelling of a burst becomes the spelling of the CMR titles */
  lemma {:induction false} BurstKeyExample(s: string)
    requires s == "t175_374393_iw2"
    ensures BurstKey(s) == "T175-374393-IW2"
  {
    var u := Upper(s);
    var k := ReplaceChar(u, '_', '-');
    assert u[0] == 'T';
    assert u[1] == '1';
    assert u[2] == '7';
    assert u[3] == '5';
    assert u[4] == '_';
    assert u[5] == '3';
    assert u[6] == '7';
    assert u[7] == '4';
    assert u[8] == '3';
    assert u[9] == '9';
    assert u[10] == '3';
    assert u[11] == '_';
    assert u[12] == 'I';
    assert u[13] == 'W';
    assert u[14] == '2';
    assert k == "T175-374393-IW2";
  }

  /** the bursts read from the file's lines: the last frame listed for each burst and
    * the number of non-blank lines */
  function ReadBursts(lines: seq<string>): Result<(map<string, string>, nat), Raised>
  {
    if lines == [] then Ok((map[], 0))
    else
      match ReadBursts(lines[..|lines| - 1])
      case Err(e) => Err(e)
      case Ok(acc) =>
        var line := lines[|lines| - 1];
        if line == "" then Ok(acc)
        else
          var parts := Split(line, ',');
          if |parts| != 3 then Err(BadLine(line))
          else Ok((acc.0[BurstKey(parts[0]) := parts[2]], acc.1 + 1))
  }

  /** the number of non-blank lines */
  function NonBlank(lines: seq<string>): nat
  {
    if lines == [] then 0
    else NonBlank(lines[..|lines| - 1]) + (if lines[|lines| - 1] == "" then 0 else 1)
  }

  /** a line the unpacking accepts */
  predicate WellFormed(line: string) { line == "" || |Split(line, ',')| == 3 }

  /** the burst a non-blank line lists */
  function LineBurst(line: string): string { BurstKey(Split(line, ',')[0]) }

  /** reading fails exactly when some non-blank line is not three fields, and the count
    * is the number of non-blank lines, of which there are at least as many as bursts */
  lemma {:induction false} ReadBurstsCount(lines: seq<string>)
    ensures ReadBursts(lines).Ok? <==> forall i :: 0 <= i < |lines| ==> WellFormed(lines[i])
    ensures ReadBursts(lines).Ok? ==>
      ReadBursts(lines).value.1 == NonBlank(lines) && |ReadBursts(lines).value.0| <= NonBlank(lines)
  {
    if lines != [] {
      var init := lines[..|lines| - 1];
      ReadBurstsCount(init);
      assert forall i :: 0 <= i < |init| ==> init[i] == lines[i];
      if ReadBursts(init).Ok? {
        var m := ReadBursts(init).value.0;
        var line := lines[|lines| - 1];
        if line != "" && WellFormed(line) {
          var k := BurstKey(Split(line, ',')[0]);
          assert m[k := Split(line, ',')[2]].Keys == m.Keys + {k};
        }
      }
    }
  }

  /** the bursts read are those of the non-blank lines, each with the frame of the last
    * line that lists it */
  lemma {:induction false} ReadBurstsKeys(lines: seq<string>, k: string)
    requires ReadBursts(lines).Ok?
    ensures k in ReadBursts(lines).value.0 <==>
      exists i :: 0 <= i < |lines| && lines[i] != "" && LineBurst(lines[i]) == k
  {
    if lines != [] {
      var init := lines[..|lines| - 1];
      ReadBurstsKeys(init, k);
      assert forall i :: 0 <= i < |init| ==> init[i] == lines[i];
      var line := lines[|lines| - 1];
      if line != "" && LineBurst(line) == k {
        assert lines[|lines| - 1] == line;
      }
    }
  }

  /** a burst's frame is the third field of the last line listing it */
  lemma {:induction false} ReadBurstsFrame(lines: seq<string>, i: nat)
    requires ReadBursts(lines).Ok? && i < |lines| && lines[i] != ""
    requires forall j :: i < j < |lines| && lines[j] != "" ==> LineBurst(lines[j]) != LineBurst(lines[i])
    ensures |Split(lines[i], ',')| == 3
    ensures LineBurst(lines[i]) in ReadBursts(lines).value.0
    ensures ReadBursts(lines).value.0[LineBurst(lines[i])] == Split(lines[i], ',')[2]
  {
    var init := lines[..|lines| - 1];
    assert forall j :: 0 <= j < |init| ==> init[j] == lines[j];
    if i < |init| {
      ReadBurstsFrame(init, i);
    }
  }

  lemma {:induction false} ReadBurstsSticks(lines: seq<string>, i: nat)
    requires i <= |lines| && ReadBursts(lines[..i]).Err?
    ensures ReadBursts(lines) == ReadBursts(lines[..i])
    decreases |lines| - i
  {
    if i < |lines| {
      assert lines[..i + 1][..i] == lines[..i];
      ReadBurstsSticks(lines, i + 1);
    } else {
      assert lines[..i] == lines;
    }
  }

  // ------------------------------------------------------ the CMR titles

  /** `\w\d{3}-\d{6}-\w\w\d` at `k`: the shape of a burst ID such as `T004-006642-IW3` */
  predicate ShapeAt(s: string, k: nat)
  {
    && k + 15 <= |s|
    && IsWord(s[k]) && (forall m :: k + 1 <= m < k + 4 ==> IsDigit(s[m]))
    && s[k + 4] == '-' && (forall m :: k + 5 <= m < k + 11 ==> IsDigit(s[m]))
    && s[k + 11] == '-' && IsWord(s[k + 12]) && IsWord(s[k + 13]) && IsDigit(s[k + 14])
  }

  /** the group at `k`, followed by `_\d+.+`: an underscore, a digit and one more
    * character that is not a line break */
  predicate GroupAt(s: string, k: nat)
  {
    && ShapeAt(s, k) && k + 18 <= |s|
    && s[k + 15] == '_' && IsDigit(s[k + 16]) && s[k + 17] != '\n'
  }

  /** the pattern `OPERA_L2_.+-S1-STATIC_(...)_\d+.+` matched from `i`, its `.+` running
    * up to `j`, where `-S1-STATIC_` starts */
  predicate MatchAt(s: string, i: nat, j: nat)
  {
    && OccursAt(s, "OPERA_L2_", i) && i + 9 < j && OccursAt(s, "-S1-STATIC_", j)
    && (forall m :: i + 9 <= m < j ==> s[m] != '\n')
    && GroupAt(s, j + 11)
  }

  /** the greedy `.+`: the last split point at or below `j` that lets the rest match */
  function LastSplit(s: string, i: nat, j: nat): (r: Option<nat>)
    ensures r.Some? ==> r.value <= j && MatchAt(s, i, r.value)
  {
    if MatchAt(s, i, j) then Some(j) else if j == 0 then None else LastSplit(s, i, j - 1)
  }

  /** `re.search`: the first start from `i` on with a match, and its group */
  function SearchFrom(s: string, i: nat): Option<string>
    decreases |s| - i
  {
    if i > |s| then None
    else
      match LastSplit(s, i, |s|)
      case Some(j) => Some(s[j + 11..j + 26])
      case None => SearchFrom(s, i + 1)
  }

  /** `re.search(pattern, title).group(1)`, None when the search finds nothing */
  function BurstOf(title: string): Option<string> { SearchFrom(title, 0) }

  /** the greedy split is the last one */
  lemma {:induction false} LastSplitSpec(s: string, i: nat, j: nat)
    ensures LastSplit(s, i, j).Some? ==> forall q: nat :: LastSplit(s, i, j).value < q <= j ==> !MatchAt(s, i, q)
    ensures LastSplit(s, i, j).None? ==> forall q: nat :: q <= j ==> !MatchAt(s, i, q)
  {
    if !MatchAt(s, i, j) && j > 0 {
      LastSplitSpec(s, i, j - 1);
    }
  }

  /** a match never runs past the end of the title */
  lemma {:induction false} MatchInside(s: string, i: nat, j: nat)
    requires MatchAt(s, i, j)
    ensures i < |s| && j + 26 <= |s|
  {
  }

  /** the search finds nothing exactly when no start from `i` on has a match */
  lemma {:induction false} SearchFromNone(s: string, i: nat)
    ensures SearchFrom(s, i).None? <==> forall p: nat, q: nat :: i <= p && MatchAt(s, p, q) ==> false
    decreases |s| - i
  {
    if i <= |s| {
      LastSplitSpec(s, i, |s|);
      SearchFromNone(s, i + 1);
      if LastSplit(s, i, |s|).None? {
        forall q: nat | MatchAt(s, i, q) ensures false { MatchInside(s, i, q); }
      }
    } else {
      forall p: nat, q: nat | i <= p && MatchAt(s, p, q) ensures false { MatchInside(s, p, q); }
    }
  }

  /** what the search finds: the group of the leftmost start with a match, split at the
    * last split point for that start */
  lemma {:induction false} SearchFromSome(s: string, i: nat)
    requires SearchFrom(s, i).Some?
    ensures exists p: nat, q: nat :: FirstMatch(s, i, p, q) && SearchFrom(s, i).value == s[q + 11..q + 26]
    decreases |s| - i
  {
    LastSplitSpec(s, i, |s|);
    match LastSplit(s, i, |s|) {
      case Some(j) =>
        forall q': nat | j < q' ensures !MatchAt(s, i, q') {
          if q' > |s| && MatchAt(s, i, q') { MatchInside(s, i, q'); }
        }
        assert FirstMatch(s, i, i, j);
      case None =>
        SearchFromSome(s, i + 1);
        var p: nat, q: nat :| FirstMatch(s, i + 1, p, q) && SearchFrom(s, i + 1).value == s[q + 11..q + 26];
        forall p': nat, q': nat | i <= p' < p ensures !MatchAt(s, p', q') {
          if p' == i && MatchAt(s, i, q') { MatchInside(s, i, q'); }
        }
        assert FirstMatch(s, i, p, q);
    }
  }

  /** the match starts at `p`, no earlier start from `i` on has one, and `q` is the last
    * split point for `p` */
  ghost predicate FirstMatch(s: string, i: nat, p: nat, q: nat)
  {
    && i <= p && MatchAt(s, p, q)
    && (forall p': nat, q': nat :: i <= p' < p ==> !MatchAt(s, p', q'))
    && (forall q': nat :: q < q' ==> !MatchAt(s, p, q'))
  }

  /** the burst the pattern captures has the burst-ID shape */
  lemma {:induction false} BurstShape(title: string)
    requires BurstOf(title).Some?
    ensures var b := BurstOf(title).value;
      |b| == 15 && ShapeAt(b, 0)
  {
    SearchFromSome(title, 0);
    var b := BurstOf(title).value;
    var p: nat, q: nat :| FirstMatch(title, 0, p, q) && b == title[q + 11..q + 26];
    assert GroupAt(title, q + 11);
    forall m | 0 <= m < 15 ensures b[m] == title[q + 11 + m] { }
  }

  /** the title in the script's own comment yields its burst ID */
  lemma {:induction false} TitleExample(s: string)
    requires s == "OPERA_L2_CSLC" + "-S1-STATIC_" + "T004-006642-IW3" + "_20140403_S1A_v1.0"
    ensures BurstOf(s) == Some("T004-006642-IW3")
  {
    ExampleMatch(s);
    ExampleLast(s);
    LastSplitSpec(s, 0, |s|);
    assert LastSplit(s, 0, |s|) == Some(13);
  }

  lemma {:induction false} ExampleMatch(s: string)
    requires s == "OPERA_L2_CSLC" + "-S1-STATIC_" + "T004-006642-IW3" + "_20140403_S1A_v1.0"
    ensures MatchAt(s, 0, 13) && s[24..39] == "T004-006642-IW3"
  {
    ExampleHead(s);
    ExampleGroup(s);
  }

  /** the prefix, the `.+` up to 13 and the separator at 13 */
  lemma {:induction false} ExampleHead(s: string)
    requires s == "OPERA_L2_CSLC" + "-S1-STATIC_" + "T004-006642-IW3" + "_20140403_S1A_v1.0"
    ensures OccursAt(s, "OPERA_L2_", 0) && OccursAt(s, "-S1-STATIC_", 13)
    ensures forall m :: 9 <= m < 13 ==> s[m] != '\n'
  {
    var head, mid := "OPERA_L2_CSLC", "-S1-STATIC_";
    assert s[..13] == head && s[13..24] == mid;
    assert s[..9] == head[..9] == "OPERA_L2_";
    assert forall m :: 9 <= m < 13 ==> s[m] == head[m];
  }

  /** the burst group at 24, then `_` and a digit */
  lemma {:induction false} ExampleGroup(s: string)
    requires s == "OPERA_L2_CSLC" + "-S1-STATIC_" + "T004-006642-IW3" + "_20140403_S1A_v1.0"
    ensures GroupAt(s, 24) && s[24..39] == "T004-006642-IW3"
  {
    var burst := "T004-006642-IW3";
    assert s[24..39] == burst;
    assert forall m :: 24 <= m < 39 ==> s[m] == burst[m - 24];
    assert s[39] == '_' && s[40] == '2';
  }

  lemma {:induction false} ExampleLast(s: string)
    requires s == "OPERA_L2_CSLC" + "-S1-STATIC_" + "T004-006642-IW3" + "_20140403_S1A_v1.0"
    ensures forall q: nat :: 13 < q ==> !MatchAt(s, 0, q)
  {
    forall q: nat | 13 < q ensures !OccursAt(s, "-S1-STATIC_", q) {
      if q == 14 {
        assert s[q..q + 11][0] == s[14] == 'S';
      } else if q == 15 {
        assert s[q..q + 11][0] == s[15] == '1';
      } else if q == 16 {
        assert s[q..q + 11][2] == s[18] == 'T';
      } else if q == 17 {
        assert s[q..q + 11][0] == s[17] == 'S';
      } else if q == 18 {
        assert s[q..q + 11][0] == s[18] == 'T';
      } else if q == 19 {
        assert s[q..q + 11][0] == s[19] == 'A';
      } else if q == 20 {
        assert s[q..q + 11][0] == s[20] == 'T';
      } else if q == 21 {
        assert s[q..q + 11][0] == s[21] == 'I';
      } else if q == 22 {
        assert s[q..q + 11][0] == s[22] == 'C';
      } else if q == 23 {
        assert s[q..q + 11][0] == s[23] == '_';
      } else if q == 24 {
        assert s[q..q + 11][0] == s[24] == 'T';
      } else if q == 25 {
        assert s[q..q + 11][0] == s[25] == '0';
      } else if q == 26 {
        assert s[q..q + 11][0] == s[26] == '0';
      } else if q == 27 {
        assert s[q..q + 11][0] == s[27] == '4';
      } else if q == 28 {
        assert s[q..q + 11][1] == s[29] == '0';
      } else if q == 29 {
        assert s[q..q + 11][0] == s[29] == '0';
      } else if q == 30 {
        assert s[q..q + 11][0] == s[30] == '0';
      } else if q == 31 {
        assert s[q..q + 11][0] == s[31] == '6';
      } else if q == 32 {
        assert s[q..q + 11][0] == s[32] == '6';
      } else if q == 33 {
        assert s[q..q + 11][0] == s[33] == '4';
      } else if q == 34 {
        assert s[q..q + 11][0] == s[34] == '2';
      } else if q == 35 {
        assert s[q..q + 11][1] == s[36] == 'I';
      } else if q == 36 {
        assert s[q..q + 11][0] == s[36] == 'I';
      } else if q == 37 {
        assert s[q..q + 11][0] == s[37] == 'W';
      } else if q == 38 {
        assert s[q..q + 11][0] == s[38] == '3';
      } else if q == 39 {
        assert s[q..q + 11][0] == s[39] == '_';
      } else if q == 40 {
        assert s[q..q + 11][0] == s[40] == '2';
      } else if q == 41 {
        assert s[q..q + 11][0] == s[41] == '0';
      } else if q == 42 {
        assert s[q..q + 11][0] == s[42] == '1';
      } else if q == 43 {
        assert s[q..q + 11][0] == s[43] == '4';
      } else if q == 44 {
        assert s[q..q + 11][0] == s[44] == '0';
      } else if q == 45 {
        assert s[q..q + 11][0] == s[45] == '4';
      } else if q == 46 {
        assert s[q..q + 11][0] == s[46] == '0';
      } else {
        assert q + 11 > |s|;
      }
    }
  }

  // ------------------------------------------------ grouping titles by burst

  /** the burst a title names, kept a parameter of the grouping's specification */
  type BurstFn = string -> Option<string>

  /** the titles grouped by burst ID, each group in encounter order, or the first title
    * the pattern misses */
  function Group(burst: BurstFn, titles: seq<string>): Result<map<string, seq<string>>, Raised>
  {
    if titles == [] then Ok(map[])
    else
      match Group(burst, titles[..|titles| - 1])
      case Err(e) => Err(e)
      case Ok(m) =>
        var t := titles[|titles| - 1];
        match burst(t)
        case None => Err(NoBurst(t))
        case Some(b) => Ok(m[b := if b in m then m[b] + [t] else [t]])
  }

  /** the titles naming burst `b`, in order: the reference the groups are checked against */
  function TitlesOf(burst: BurstFn, titles: seq<string>, b: string): (r: seq<string>)
    ensures |r| <= |titles|
  {
    if titles == [] then []
    else
      var t := titles[|titles| - 1];
      TitlesOf(burst, titles[..|titles| - 1], b) + (if burst(t) == Some(b) then [t] else [])
  }

  /** grouping fails exactly when the pattern misses some title */
  lemma {:induction false} GroupFails(burst: BurstFn, titles: seq<string>)
    ensures Group(burst, titles).Err? <==> exists i :: 0 <= i < |titles| && burst(titles[i]).None?
  {
    if titles != [] {
      var init := titles[..|titles| - 1];
      GroupFails(burst, init);
      assert forall i :: 0 <= i < |init| ==> init[i] == titles[i];
      if burst(titles[|titles| - 1]).None? {
        assert burst(titles[|titles| - 1]).None?;
      }
    }
  }

  /** every burst's group holds exactly the titles naming it, in encounter order, and
    * there is a group for every burst some title names */
  lemma {:induction false} GroupSpec(burst: BurstFn, titles: seq<string>, b: string)
    requires Group(burst, titles).Ok?
    ensures b in Group(burst, titles).value <==> TitlesOf(burst, titles, b) != []
    ensures b in Group(burst, titles).value ==> Group(burst, titles).value[b] == TitlesOf(burst, titles, b)
  {
    if titles != [] {
      GroupSpec(burst, titles[..|titles| - 1], b);
    }
  }

  /** a title is in the list of burst `b` exactly when it names `b` */
  lemma {:induction false} TitlesOfMembers(burst: BurstFn, titles: seq<string>, b: string, t: string)
    ensures t in TitlesOf(burst, titles, b) <==> t in titles && burst(t) == Some(b)
  {
    if titles != [] {
      var init := titles[..|titles| - 1];
      TitlesOfMembers(burst, init, b, t);
      assert titles == init + [titles[|titles| - 1]];
    }
  }

  lemma {:induction false} GroupSticks(burst: BurstFn, titles: seq<string>, i: nat)
    requires i <= |titles| && Group(burst, titles[..i]).Err?
    ensures Group(burst, titles) == Group(burst, titles[..i])
    decreases |titles| - i
  {
    if i < |titles| {
      assert titles[..i + 1][..i] == titles[..i];
      GroupSticks(burst, titles, i + 1);
    } else {
      assert titles[..i] == titles;
    }
  }

  // ------------------------------------------------- duplicates and missing

  /** the bursts with more than one static layer */
  function Duplicated(groups: map<string, seq<string>>): (d: set<string>)
    ensures d <= groups.Keys
  {
    set b | b in groups && |groups[b]| > 1
  }

  /** the missing frames: the frames of the missing bursts */
  function FramesOf(burstToFrame: map<string, string>, bursts: set<string>): set<string>
    requires bursts <= burstToFrame.Keys
  {
    set b | b in bursts :: burstToFrame[b]
  }

  lemma {:induction false} FramesAdd(burstToFrame: map<string, string>, bursts: set<string>, b: string)
    requires bursts <= burstToFrame.Keys && b in burstToFrame
    ensures FramesOf(burstToFrame, bursts + {b}) == FramesOf(burstToFrame, bursts) + {burstToFrame[b]}
  {
  }

  /** there are no more missing frames than missing bursts */
  lemma {:induction false} FramesBound(burstToFrame: map<string, string>, bursts: set<string>)
    requires bursts <= burstToFrame.Keys
    ensures |FramesOf(burstToFrame, bursts)| <= |bursts|
    decreases |bursts|
  {
    if bursts != {} {
      var b :| b in bursts;
      var rest := bursts - {b};
      FramesBound(burstToFrame, rest);
      assert bursts == rest + {b};
      FramesAdd(burstToFrame, rest, b);
    }
  }

  /** one more burst looked at: it is missing when CMR lacks it */
  lemma {:induction false} MissingStep(listed: set<string>, todo: set<string>, inCmr: set<string>, b: string)
    requires todo <= listed && b in todo
    ensures (listed - (todo - {b})) - inCmr == ((listed - todo) - inCmr) + (if b in inCmr then {} else {b})
  {
  }

  /** what a run logs and writes: the non-blank lines of the file, its distinct bursts,
    * the distinct bursts in CMR, the bursts with duplicate static layers, and the
    * missing bursts and frames */
  datatype Summary = Summary(lines: nat, fileBursts: nat, cmrBursts: nat, duplicates: nat,
                             missingBursts: set<string>, missingFrames: set<string>)

  /** the whole run on the file's text and the CMR titles */
  function Validation(data: string, titles: seq<string>): Result<Summary, Raised>
  {
    match ReadBursts(Split(data, '\n'))
    case Err(e) => Err(e)
    case Ok(read) =>
      match Group(BurstOf, titles)
      case Err(e) => Err(e)
      case Ok(groups) =>
        var missing := read.0.Keys - groups.Keys;
        Ok(Summary(read.1, |read.0|, |groups|, |Duplicated(groups)|, missing, FramesOf(read.0, missing)))
  }

  /** some non-blank line of the file lists burst `b` */
  ghost predicate ListsBurst(lines: seq<string>, b: string)
  {
    exists i :: 0 <= i < |lines| && lines[i] != "" && LineBurst(lines[i]) == b
  }

  /** some title in CMR names burst `b` */
  ghost predicate NamesBurst(titles: seq<string>, b: string)
  {
    exists t :: t in titles && BurstOf(t) == Some(b)
  }

  /** a burst is missing exactly when a non-blank line of the file lists it and no title
    * in CMR names it; no more bursts are duplicated than CMR holds, and the file holds no
    * more distinct bursts than non-blank lines */
  lemma {:induction false} ValidationSpec(data: string, titles: seq<string>, b: string)
    requires Validation(data, titles).Ok?
    ensures b in Validation(data, titles).value.missingBursts <==>
      ListsBurst(Split(data, '\n'), b) && !NamesBurst(titles, b)
    ensures Validation(data, titles).value.duplicates <= Validation(data, titles).value.cmrBursts
    ensures Validation(data, titles).value.fileBursts <= Validation(data, titles).value.lines
  {
    var lines := Split(data, '\n');
    var read := ReadBursts(lines).value;
    var groups := Group(BurstOf, titles).value;
    ReadBurstsKeys(lines, b);
    ReadBurstsCount(lines);
    GroupSpec(BurstOf, titles, b);
    assert Validation(data, titles).value.missingBursts == read.0.Keys - groups.Keys;
    if TitlesOf(BurstOf, titles, b) != [] {
      var t := TitlesOf(BurstOf, titles, b)[0];
      TitlesOfMembers(BurstOf, titles, b, t);
      assert b in groups;
    } else {
      forall t | t in titles ensures BurstOf(t) != Some(b) {
        TitlesOfMembers(BurstOf, titles, b, t);
      }
      assert b !in groups;
    }

    SubsetSize(Duplicated(groups), groups.Keys);
  }

  lemma {:induction false} SubsetSize(a: set<string>, b: set<string>)
    requires a <= b
    ensures |a| <= |b|
    decreases |b|
  {
    if b != {} {
      var x :| x in b;
      SubsetSize(a - {x}, b - {x});
    }
  }

  /** a burst counts as duplicated exactly when two or more titles name it */
  lemma {:induction false} DuplicatedSpec(titles: seq<string>, b: string)
    requires Group(BurstOf, titles).Ok?
    ensures b in Duplicated(Group(BurstOf, titles).value) <==> |TitlesOf(BurstOf, titles, b)| > 1
  {
    GroupSpec(BurstOf, titles, b);
  }

  /** the validator of one product; the script keeps only its configuration */
  class Validator {
    const config: Config

    /** `StaticLayersValidator(product)` for a product the argument parser admits */
    constructor (product: string)
      requires ConfigOf(product).Some?
      ensures config == ConfigOf(product).value
    {
      config := ConfigOf(product).value;
    }

    /** `main`: the file's text and the CMR titles given, the logged counts and the
      * written sets returned */
    method Validate(data: string, titles: seq<string>) returns (r: Result<Summary, Raised>)
      ensures r == Validation(data, titles)
    {
      var read := BurstIdsFromFile(data);
      if read.Err? {
        return Err(read.error);
      }
      var groups := BurstIdsFromCmr(titles);
      if groups.Err? {
        return Err(groups.error);
      }
      var duplicates := IdentifyDuplicates(groups.value);
      var missingBursts, missingFrames := IdentifyMissing(read.value.0, groups.value);
      r := Ok(Summary(read.value.1, |read.value.0|, |groups.value|, duplicates, missingBursts, missingFrames));
    }

    /** `_get_burst_ids_from_file`, the response's text given */
    method BurstIdsFromFile(data: string) returns (r: Result<(map<string, string>, nat), Raised>)
      ensures r == ReadBursts(Split(data, '\n'))
    {
      var lines := Split(data, '\n');
      var burstToFrame: map<string, string> := map[];
      var count := 0;
      for i := 0 to |lines|
        invariant ReadBursts(lines[..i]) == Ok((burstToFrame, count))
      {
        assert lines[..i + 1][..i] == lines[..i];
        var line := lines[i];
        if line != "" {
          count := count + 1;
          var parts := Split(line, ',');
          if |parts| != 3 {
            ReadBurstsSticks(lines, i + 1);
            return Err(BadLine(line));
          }
          burstToFrame := burstToFrame[BurstKey(parts[0]) := parts[2]];
        }
      }
      assert lines[..|lines|] == lines;
      r := Ok((burstToFrame, count));
    }

    /** `_get_burst_ids_from_cmr`, the titles of the collection's granules given */
    method BurstIdsFromCmr(titles: seq<string>) returns (r: Result<map<string, seq<string>>, Raised>)
      ensures r == Group(BurstOf, titles)
    {
      var groups: map<string, seq<string>> := map[];
      for i := 0 to |titles|
        invariant Group(BurstOf, titles[..i]) == Ok(groups)
      {
        assert titles[..i + 1][..i] == titles[..i];
        var title := titles[i];
        var m := BurstOf(title);
        if m.None? {
          GroupSticks(BurstOf, titles, i + 1);
          return Err(NoBurst(title));
        }
        var b := m.value;
        if b in groups {
          groups := groups[b := groups[b] + [title]];
        } else {
          groups := groups[b := [title]];
        }
      }
      assert titles[..|titles|] == titles;
      r := Ok(groups);
    }

    /** `_identify_duplicate_static_layers`: the number of bursts with more than one
      * static layer */
    static method IdentifyDuplicates(groups: map<string, seq<string>>) returns (n: nat)
      ensures n == |Duplicated(groups)| && n <= |groups|
    {
      n := 0;
      var todo := groups.Keys;
      while todo != {}
        invariant todo <= groups.Keys
        invariant n == |Duplicated(groups) - todo|
        decreases |todo|
      {
        var b :| b in todo;
        if |groups[b]| > 1 {
          assert Duplicated(groups) - (todo - {b}) == (Duplicated(groups) - todo) + {b};
          n := n + 1;
        } else {
          assert Duplicated(groups) - (todo - {b}) == Duplicated(groups) - todo;
        }
        todo := todo - {b};
      }
      assert Duplicated(groups) - {} == Duplicated(groups);
      assert |Duplicated(groups)| <= |groups.Keys|;
    }

    /** `_identify_missing_bursts_and_frames`: the listed bursts CMR lacks, and their frames */
    method IdentifyMissing(burstToFrame: map<string, string>, groups: map<string, seq<string>>)
      returns (missingBursts: set<string>, missingFrames: set<string>)
      ensures missingBursts == burstToFrame.Keys - groups.Keys
      ensures missingFrames == FramesOf(burstToFrame, missingBursts)
      ensures |missingFrames| <= |missingBursts|
    {
      missingBursts, missingFrames := {}, {};
      var todo := burstToFrame.Keys;
      while todo != {}
        invariant todo <= burstToFrame.Keys
        invariant missingBursts == (burstToFrame.Keys - todo) - groups.Keys
        invariant missingFrames == FramesOf(burstToFrame, missingBursts)
        decreases |todo|
      {
        var b :| b in todo;
        MissingStep(burstToFrame.Keys, todo, groups.Keys, b);
        if b !in groups {
          FramesAdd(burstToFrame, missingBursts, b);
          missingFrames := missingFrames + {burstToFrame[b]};
          missingBursts := missingBursts + {b};
        }
        todo := todo - {b};
      }
      assert burstToFrame.Keys - {} == burstToFrame.Keys;
      FramesBound(burstToFrame, missingBursts);
    }
  }
}
