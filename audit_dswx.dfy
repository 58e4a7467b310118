/** The DSWx-S1 input auditor (`audit_dswx/audit_dswx_inputs.py`): every
  * DSWx-S1 granule lists the RTC-S1 files it was made from; the auditor
  * collapses the file variants of one RTC product to its base identifier,
  * reads the Sentinel-1 track and acquisition time out of each base, and
  * fails a granule whose inputs mix tracks or spread over more minutes than
  * the threshold. The CMR search pages and the retrying GET are modelled
  * over abstract replies. */
module AuditDswx {
  import opened Base
  import opened Calendar

  // ------------------------------------------------------ fixed-shape patterns

  /** one piece of the three RTC patterns */
  datatype Tok =
    | Text(t: string)  // a literal
    | Fixed(n: nat)    // `\d{n}`
    | Run              // `\d+`, in these patterns followed by a non-digit or the end
    | Cap              // `[A-Z]`

  /** the length of the run of ASCII digits `t` starts with */
  function DigitRun(t: string): (n: nat)
    ensures n <= |t| && (n < |t| ==> !IsDigit(t[n]))
  {
    if t != [] && IsDigit(t[0]) then 1 + DigitRun(t[1..]) else 0
  }

  /** the end of the run of ASCII digits starting at `i` */
  function RunEnd(s: string, i: nat): (e: nat)
    requires i <= |s|
    ensures i <= e <= |s| && (e < |s| ==> !IsDigit(s[e]))
  {
    i + DigitRun(s[i..])
  }

  /** where a match of the single token `k` starting at `i` ends */
  function StepEnd(k: Tok, s: string, i: nat): (r: Option<nat>)
    requires i <= |s|
    ensures r.Some? ==> i <= r.value <= |s|
  {
    match k
    case Text(t) => if OccursAt(s, t, i) then Some(i + |t|) else None
    case Fixed(n) => if i + n <= |s| && AllDigits(s[i..i + n]) then Some(i + n) else None
    case Run => var e := RunEnd(s, i); if e == i then None else Some(e)
    case Cap => if i < |s| && IsUpper(s[i]) then Some(i + 1) else None
  }

  /** where a match of `toks` starting at `i` ends: `\d+` takes the whole digit run,
    * which is the only way to go on since what follows it never starts with a digit */
  function MatchEnd(toks: seq<Tok>, s: string, i: nat): (r: Option<nat>)
    requires i <= |s|
    ensures r.Some? ==> i <= r.value <= |s|
    decreases |toks|
  {
    if toks == [] then Some(i)
    else match StepEnd(toks[0], s, i)
      case None => None
      case Some(k) => MatchEnd(toks[1..], s, k)
  }

  /** `pattern.search(s)`: the leftmost start at or after `i` where a match begins, and its end */
  function Find(toks: seq<Tok>, s: string, i: nat): (r: Option<(nat, nat)>)
    requires i <= |s|
    ensures r.Some? ==> i <= r.value.0 <= r.value.1 <= |s| && MatchEnd(toks, s, r.value.0) == Some(r.value.1)
    ensures r.Some? ==> forall j :: i <= j < r.value.0 ==> MatchEnd(toks, s, j).None?
    ensures r.None? ==> forall j :: i <= j <= |s| ==> MatchEnd(toks, s, j).None?
    decreases |s| - i
  {
    match MatchEnd(toks, s, i)
    case Some(e) => Some((i, e))
    case None => if i < |s| then Find(toks, s, i + 1) else None
  }

  /** `RTC_BASE_RE`: `OPERA_L2_RTC-S1_T\d{3}-\d+-IW\d_\d{8}T\d{6}Z_\d{8}T\d{6}Z_S1[A-Z]_30_v\d+\.\d+` */
  function BasePattern(): seq<Tok>
  {
    [Text("OPERA_L2_RTC-S1_T"), Fixed(3), Text("-"), Run, Text("-IW"), Fixed(1), Text("_"),
     Fixed(8), Text("T"), Fixed(6), Text("Z_"), Fixed(8), Text("T"), Fixed(6), Text("Z_S1"), Cap,
     Text("_30_v"), Run, Text("."), Run]
  }

  /** `RTC_TRACK_RE`: `RTC-S1_T(\d{3})-` */
  function TrackPattern(): seq<Tok> { [Text("RTC-S1_T"), Fixed(3), Text("-")] }

  /** `ACQ_TIME_RE`: `_(\d{8}T\d{6}Z)_` */
  function TimePattern(): seq<Tok> { [Text("_"), Fixed(8), Text("T"), Fixed(6), Text("Z_")] }

  /** `RTC_BASE_RE.search(g).group(1)`: the group is the whole match */
  function BaseOf(g: string): (r: Option<string>)
    ensures r.Some? ==> StartsWith(r.value, "OPERA_L2_RTC-S1_T")
  {
    match Find(BasePattern(), g, 0)
    case None => None
    case Some((i, e)) =>
      LeadingText(BasePattern(), g, i);
      OccursStarts(g, BasePattern()[0].t, i, e);
      Some(g[i..e])
  }

  /** the fewest characters a match of `toks` spans */
  function MinLen(toks: seq<Tok>): nat
  {
    if toks == [] then 0
    else
      (match toks[0] case Text(t) => |t| case Fixed(n) => n case Run => 1 case Cap => 1) + MinLen(toks[1..])
  }

  lemma {:induction false} MatchLength(toks: seq<Tok>, s: string, i: nat)
    requires i <= |s| && MatchEnd(toks, s, i).Some?
    ensures i + MinLen(toks) <= MatchEnd(toks, s, i).value
    decreases |toks|
  {
    if toks != [] {
      MatchLength(toks[1..], s, StepEnd(toks[0], s, i).value);
    }
  }

  /** a match begins with its pattern's leading literal */
  lemma {:induction false} LeadingText(toks: seq<Tok>, s: string, i: nat)
    requires i <= |s| && toks != [] && toks[0].Text? && MatchEnd(toks, s, i).Some?
    ensures OccursAt(s, toks[0].t, i) && i + |toks[0].t| <= MatchEnd(toks, s, i).value
  {
    assert StepEnd(toks[0], s, i) == Some(i + |toks[0].t|);
  }

  /** `RTC-S1_T`, three digits and `-` occur at `i` */
  predicate TrackAt(b: string, i: nat)
  {
    i + 12 <= |b| && b[i..i + 8] == "RTC-S1_T" && AllDigits(b[i + 8..i + 11]) && b[i + 11] == '-'
  }

  /** the track pattern matches at `i` exactly where `TrackAt` holds */
  lemma {:induction false} TrackMatches(b: string)
    ensures forall i: nat :: i <= |b| ==> (MatchEnd(TrackPattern(), b, i).Some? <==> TrackAt(b, i))
  {
    var toks := TrackPattern();
    assert toks[1..] == [Fixed(3), Text("-")] && toks[1..][1..] == [Text("-")];
    forall i: nat | i <= |b| ensures MatchEnd(toks, b, i).Some? <==> TrackAt(b, i) {
      if i + 12 <= |b| {
        assert b[i + 11..i + 12] == "-" <==> b[i + 11] == '-';
      }
    }
  }

  /** `RTC_TRACK_RE.search(b).group(1)`: found iff `RTC-S1_T`, three digits and
    * `-` occur somewhere, and then the three digits of the leftmost occurrence */
  function TrackOf(b: string): (r: Option<string>)
    ensures r.Some? <==> exists i: nat :: TrackAt(b, i)
    ensures r.Some? ==> exists i: nat :: TrackAt(b, i) && r.value == b[i + 8..i + 11] && forall j: nat :: j < i ==> !TrackAt(b, j)
    ensures r.Some? ==> |r.value| == 3 && AllDigits(r.value)
  {
    TrackMatches(b);
    match Find(TrackPattern(), b, 0)
    case None => None
    case Some((i, e)) =>
      MatchLength(TrackPattern(), b, i);
      Some(b[i + 8..i + 11])
  }

  /** `ACQ_TIME_RE.search(b).group(1)`: the sixteen characters between the underscores */
  function TimeTokenOf(b: string): (r: Option<string>)
    ensures r.Some? ==> |r.value| == 16
  {
    match Find(TimePattern(), b, 0)
    case None => None
    case Some((i, e)) =>
      MatchLength(TimePattern(), b, i);
      Some(b[i + 1..i + 17])
  }

  /** a digit run ends where it ended before when the text is extended by something
    * that does not start with a digit */
  lemma {:induction false} DigitRunExtend(t: string, u: string)
    requires u == [] || !IsDigit(u[0])
    ensures DigitRun(t + u) == DigitRun(t)
  {
    if t != [] {
      assert (t + u)[1..] == t[1..] + u;
      DigitRunExtend(t[1..], u);
    }
  }

  lemma {:induction false} RunEndExtend(s: string, u: string, i: nat)
    requires i <= |s| && (u == [] || !IsDigit(u[0]))
    ensures RunEnd(s + u, i) == RunEnd(s, i)
  {
    assert (s + u)[i..] == s[i..] + u;
    DigitRunExtend(s[i..], u);
  }

  /** a match is not disturbed by text appended after it that does not start with a digit */
  lemma {:induction false} StepEndExtend(k: Tok, s: string, u: string, i: nat)
    requires i <= |s| && StepEnd(k, s, i).Some? && (u == [] || !IsDigit(u[0]))
    ensures StepEnd(k, s + u, i) == StepEnd(k, s, i)
  {
    match k
    case Text(t) => assert (s + u)[i..i + |t|] == s[i..i + |t|];
    case Fixed(n) => assert (s + u)[i..i + n] == s[i..i + n];
    case Run => RunEndExtend(s, u, i);
    case Cap =>
  }

  lemma {:induction false} MatchEndExtend(toks: seq<Tok>, s: string, u: string, i: nat)
    requires i <= |s| && MatchEnd(toks, s, i).Some? && (u == [] || !IsDigit(u[0]))
    ensures MatchEnd(toks, s + u, i) == MatchEnd(toks, s, i)
    decreases |toks|
  {
    if toks != [] {
      StepEndExtend(toks[0], s, u, i);
      MatchEndExtend(toks[1..], s, u, StepEnd(toks[0], s, i).value);
    }
  }

  /** the HH, HV, mask and HDF5 files of one RTC product (its base followed by a suffix
    * such as `_HH.tif` or `.h5` that does not start with a digit) all reduce to that base */
  lemma {:induction false} VariantsShareBase(b: string, suffix: string)
    requires BaseOf(b) == Some(b)
    requires suffix == [] || !IsDigit(suffix[0])
    ensures BaseOf(b + suffix) == Some(b)
  {
    var (i, e) := Find(BasePattern(), b, 0).value;
    assert i == 0 && e == |b| by {
      assert |b[i..e]| == |b|;
    }
    MatchEndExtend(BasePattern(), b, suffix, 0);
    assert (b + suffix)[0..|b|] == b;
  }

  /** `piece` is a whole match of the single token `k` */
  predicate Fits(k: Tok, piece: string)
  {
    match k
    case Text(t) => piece == t
    case Fixed(n) => |piece| == n && AllDigits(piece)
    case Run => |piece| > 0 && AllDigits(piece)
    case Cap => |piece| == 1 && IsUpper(piece[0])
  }

  /** every piece after a `\d+` starts with a non-digit, so the digit run ends where the
    * piece of the `\d+` does */
  predicate Separated(toks: seq<Tok>, pieces: seq<string>)
    requires |pieces| == |toks|
  {
    forall k :: 0 <= k < |toks| - 1 && toks[k].Run? ==> pieces[k + 1] != [] && !IsDigit(pieces[k + 1][0])
  }

  /** a match of the rest is a match of the rest wherever the text sits */
  lemma {:induction false} RunEndShift(x: string, s: string, i: nat)
    requires i <= |s|
    ensures RunEnd(x + s, |x| + i) == |x| + RunEnd(s, i)
  {
    assert (x + s)[|x| + i..] == s[i..];
  }

  lemma {:induction false} StepEndShift(k: Tok, x: string, s: string, i: nat)
    requires i <= |s| && StepEnd(k, s, i).Some?
    ensures StepEnd(k, x + s, |x| + i) == Some(|x| + StepEnd(k, s, i).value)
  {
    var xs, j := x + s, |x| + i;
    match k
    case Text(t) => assert xs[j..j + |t|] == s[i..i + |t|];
    case Fixed(n) => assert xs[j..j + n] == s[i..i + n];
    case Run => RunEndShift(x, s, i);
    case Cap => assert xs[j] == s[i];
  }

  lemma {:induction false} MatchEndShift(toks: seq<Tok>, x: string, s: string, i: nat, j: nat)
    requires i <= |s| && j == |x| + i && MatchEnd(toks, s, i).Some?
    ensures MatchEnd(toks, x + s, j) == Some(|x| + MatchEnd(toks, s, i).value)
    decreases |toks|
  {
    if toks != [] {
      StepEndShift(toks[0], x, s, i);
      var e := StepEnd(toks[0], s, i).value;
      MatchEndShift(toks[1..], x, s, e, |x| + e);
    }
  }

  /** one token matched by its own piece, then the rest by what follows */
  lemma {:induction false} MatchStep(toks: seq<Tok>, piece: string, s: string)
    requires toks != [] && Fits(toks[0], piece)
    requires toks[0].Run? ==> s == [] || !IsDigit(s[0])
    requires MatchEnd(toks[1..], s, 0) == Some(|s|)
    ensures MatchEnd(toks, piece + s, 0) == Some(|piece| + |s|)
  {
    var rest, ps := toks[1..], piece + s;
    assert StepEnd(toks[0], ps, 0) == Some(|piece|) by { StepPiece(toks[0], piece, s); }
    MatchEndAfter(rest, piece, s);
    MatchEndCons(toks, ps, 0, |piece|);
  }

  /** a whole match of `s` is a match of the end of `x + s` */
  lemma {:induction false} MatchEndAfter(toks: seq<Tok>, x: string, s: string)
    requires MatchEnd(toks, s, 0) == Some(|s|)
    ensures MatchEnd(toks, x + s, |x|) == Some(|x| + |s|)
  {
    MatchEndShift(toks, x, s, 0, |x|);
  }

  /** a match goes on from where its first token's match ends */
  lemma {:induction false} MatchEndCons(toks: seq<Tok>, s: string, i: nat, k: nat)
    requires i <= |s| && toks != [] && StepEnd(toks[0], s, i) == Some(k)
    ensures k <= |s| && MatchEnd(toks, s, i) == MatchEnd(toks[1..], s, k)
  {}

  lemma {:induction false} StepPiece(k: Tok, piece: string, s: string)
    requires Fits(k, piece) && (k.Run? ==> s == [] || !IsDigit(s[0]))
    ensures StepEnd(k, piece + s, 0) == Some(|piece|)
  {
    var ps := piece + s;
    match k
    case Text(t) => assert ps[0..|t|] == piece;
    case Fixed(n) => assert ps[0..n] == piece;
    case Run =>
      RunEndExtend(piece, s, 0);
      assert RunEnd(piece, 0) == |piece|;
    case Cap => assert ps[0] == piece[0];
  }

  /** the concatenation of a list of pieces */
  function Concat(pieces: seq<string>): string
  {
    if pieces == [] then "" else pieces[0] + Concat(pieces[1..])
  }

  /** a text cut into pieces, each a whole match of its token, is a whole match of the pattern */
  lemma {:induction false} MatchPieces(toks: seq<Tok>, pieces: seq<string>)
    requires |pieces| == |toks| && Separated(toks, pieces)
    requires forall k :: 0 <= k < |toks| ==> Fits(toks[k], pieces[k])
    ensures MatchEnd(toks, Concat(pieces), 0) == Some(|Concat(pieces)|)
    decreases |toks|
  {
    if toks != [] {
      var rest := Concat(pieces[1..]);
      assert MatchEnd(toks[1..], rest, 0) == Some(|rest|) by {
        PiecesTail(toks, pieces);
        MatchPieces(toks[1..], pieces[1..]);
      }
      if toks[0].Run? && |toks| > 1 {
        assert pieces[1] != [] && !IsDigit(pieces[1][0]);
        assert pieces[1..][1..] == pieces[2..];
        assert rest == pieces[1] + Concat(pieces[2..]);
        assert rest[0] == pieces[1][0];
      }
      assert Concat(pieces) == pieces[0] + rest;
      MatchStep(toks, pieces[0], rest);
    }
  }

  /** the pieces after the first fit the tokens after the first */
  lemma {:induction false} PiecesTail(toks: seq<Tok>, pieces: seq<string>)
    requires |pieces| == |toks| && toks != [] && Separated(toks, pieces)
    requires forall k :: 0 <= k < |toks| ==> Fits(toks[k], pieces[k])
    ensures Separated(toks[1..], pieces[1..])
    ensures forall k :: 0 <= k < |toks| - 1 ==> Fits(toks[1..][k], pieces[1..][k])
  {
    forall k | 0 <= k < |toks| - 2 && toks[1..][k].Run?
      ensures pieces[1..][k + 1] != [] && !IsDigit(pieces[1..][k + 1][0])
    {
      assert toks[k + 1].Run?;
    }
    forall k | 0 <= k < |toks| - 1 ensures Fits(toks[1..][k], pieces[1..][k]) {
      assert toks[1..][k] == toks[k + 1] && pieces[1..][k] == pieces[k + 1];
    }
  }

  /** the parts of an RTC-S1 product identifier */
  datatype RtcId = RtcId(track: string, burst: string, swath: char, startDay: string, startClock: string,
                         stopDay: string, stopClock: string, sensor: char, major: string, minor: string)

  predicate WellFormed(r: RtcId)
  {
    |r.track| == 3 && AllDigits(r.track) && |r.burst| > 0 && AllDigits(r.burst) && IsDigit(r.swath)
    && |r.startDay| == 8 && AllDigits(r.startDay) && |r.startClock| == 6 && AllDigits(r.startClock)
    && |r.stopDay| == 8 && AllDigits(r.stopDay) && |r.stopClock| == 6 && AllDigits(r.stopClock)
    && IsUpper(r.sensor) && |r.major| > 0 && AllDigits(r.major) && |r.minor| > 0 && AllDigits(r.minor)
  }

  /** the pieces of an identifier, one per token of `RTC_BASE_RE` */
  function RtcPieces(r: RtcId): seq<string>
  {
    ["OPERA_L2_RTC-S1_T", r.track, "-", r.burst, "-IW", [r.swath], "_",
     r.startDay, "T", r.startClock, "Z_", r.stopDay, "T", r.stopClock, "Z_S1", [r.sensor],
     "_30_v", r.major, ".", r.minor]
  }

  /** `OPERA_L2_RTC-S1_T<track>-<burst>-IW<swath>_<start>_<stop>_S1<sensor>_30_v<major>.<minor>` */
  function RtcName(r: RtcId): string { Concat(RtcPieces(r)) }

  lemma {:induction false} RtcPiecesFit(r: RtcId)
    requires WellFormed(r)
    ensures |RtcPieces(r)| == |BasePattern()|
    ensures forall k :: 0 <= k < |BasePattern()| ==> Fits(BasePattern()[k], RtcPieces(r)[k])
    ensures Separated(BasePattern(), RtcPieces(r))
  {
    PiecesFit(r);
    PiecesSeparated(r);
  }

  lemma {:induction false} PiecesFit(r: RtcId)
    requires WellFormed(r)
    ensures |RtcPieces(r)| == |BasePattern()|
    ensures forall k :: 0 <= k < |BasePattern()| ==> Fits(BasePattern()[k], RtcPieces(r)[k])
  {}

  lemma {:induction false} PiecesSeparated(r: RtcId)
    requires WellFormed(r)
    ensures |RtcPieces(r)| == |BasePattern()|
    ensures Separated(BasePattern(), RtcPieces(r))
  {}

  /** every well-formed RTC identifier is its own base, and so are all its file variants */
  lemma {:induction false} RtcNameIsBase(r: RtcId, suffix: string)
    requires WellFormed(r)
    requires suffix == [] || !IsDigit(suffix[0])
    ensures BaseOf(RtcName(r)) == Some(RtcName(r))
    ensures BaseOf(RtcName(r) + suffix) == Some(RtcName(r))
  {
    var toks, pieces := BasePattern(), RtcPieces(r);
    RtcPiecesFit(r);
    MatchPieces(toks, pieces);
    var b := RtcName(r);
    assert b[0..|b|] == b;
    VariantsShareBase(b, suffix);
  }

  // ------------------------------------------------------ dedupe_rtc_inputs

  const UnparsedTag := "UNPARSED::"

  predicate IsUnparsed(x: string) { StartsWith(x, UnparsedTag) }

  /** a base recognizer: `BaseOf`, kept a parameter so that the proofs about the
    * dedupe never unfold the pattern */
  type BaseFn = string -> Option<string>

  /** every base the recognizer returns is an RTC identifier */
  ghost predicate RtcBases(baseOf: BaseFn)
  {
    forall g :: baseOf(g).Some? ==> StartsWith(baseOf(g).value, "OPERA_L2_RTC-S1_T")
  }

  lemma {:induction false} BaseOfRtc()
    ensures RtcBases(BaseOf)
  {
    forall g | BaseOf(g).Some? ensures StartsWith(BaseOf(g).value, "OPERA_L2_RTC-S1_T") {}
  }

  /** the bases found so far, one per input that has one, in input order (the source's
    * `bases` set; only `sorted(bases)` is ever read, which `SortedSet` takes of this list) */
  function Bases(baseOf: BaseFn, gs: seq<string>): seq<string>
  {
    if gs == [] then []
    else
      var last := gs[|gs| - 1];
      Bases(baseOf, gs[..|gs| - 1]) + (match baseOf(last) case Some(b) => [b] case None => [])
  }

  /** the inputs without a base, in input order */
  function Leftovers(baseOf: BaseFn, gs: seq<string>): seq<string>
  {
    if gs == [] then []
    else
      var last := gs[|gs| - 1];
      Leftovers(baseOf, gs[..|gs| - 1]) + (if baseOf(last).None? then [last] else [])
  }

  /** `[f"UNPARSED::{x}" for x in xs]` */
  function Tagged(xs: seq<string>): (r: seq<string>)
    ensures |r| == |xs| && forall i :: 0 <= i < |xs| ==> r[i] == UnparsedTag + xs[i]
  {
    seq(|xs|, i requires 0 <= i < |xs| => UnparsedTag + xs[i])
  }

  /** what `dedupe_rtc_inputs` returns */
  function Dedupe(baseOf: BaseFn, gs: seq<string>): seq<string>
  {
    if Bases(baseOf, gs) == [] then SortedSet(gs)
    else SortedSet(Bases(baseOf, gs)) + Tagged(SortedSet(Leftovers(baseOf, gs)))
  }

  /** `dedupe_rtc_inputs(input_granules)`: one pass sorting inputs into bases and leftovers */
  method DedupeRtcInputs(gs: seq<string>) returns (out: seq<string>)
    ensures out == Dedupe(BaseOf, gs)
  {
    var bases: seq<string> := [];
    var leftovers: seq<string> := [];
    for i := 0 to |gs|
      invariant bases == Bases(BaseOf, gs[..i]) && leftovers == Leftovers(BaseOf, gs[..i])
    {
      assert gs[..i + 1][..i] == gs[..i];
      match BaseOf(gs[i])
      case Some(b) => bases := bases + [b];
      case None => leftovers := leftovers + [gs[i]];
    }
    assert gs[..|gs|] == gs;
    if bases == [] {
      return SortedSet(gs);
    }
    out := SortedSet(bases);
    if leftovers != [] {
      out := out + Tagged(SortedSet(leftovers));
    }
  }

  /** an input's base is among the bases, and an input without one among the leftovers */
  lemma {:induction false} BasesSpec(baseOf: BaseFn, gs: seq<string>)
    ensures forall x :: x in Bases(baseOf, gs) <==> exists g :: g in gs && baseOf(g) == Some(x)
    ensures forall g :: g in Leftovers(baseOf, gs) <==> g in gs && baseOf(g).None?
  {
    if gs != [] {
      var init, last := gs[..|gs| - 1], gs[|gs| - 1];
      BasesSpec(baseOf, init);
      assert gs == init + [last];
      forall x ensures x in Bases(baseOf, gs) <==> exists g :: g in gs && baseOf(g) == Some(x) {
        if exists g :: g in gs && baseOf(g) == Some(x) {
          var g :| g in gs && baseOf(g) == Some(x);
          if g != last { assert g in init; }
        }
      }
    }
  }

  /** bases start with `OPERA_`, so none of them carries the `UNPARSED::` tag */
  lemma {:induction false} BaseNotTagged(x: string)
    requires StartsWith(x, "OPERA_L2_RTC-S1_T")
    ensures !IsUnparsed(x)
  {
    assert x[0] == "OPERA_L2_RTC-S1_T"[0];
  }

  /** tagging keeps the order of the untagged names */
  lemma {:induction false} TaggedOrder(a: string, b: string, t: string)
    ensures LexLt(t + a, t + b) <==> LexLt(a, b)
    decreases |t|
  {
    if t != [] {
      assert (t + a)[1..] == t[1..] + a && (t + b)[1..] == t[1..] + b;
      TaggedOrder(a, b, t[1..]);
    } else {
      assert t + a == a && t + b == b;
    }
  }

  /** the names of the inputs that have a base */
  function BaseSet(baseOf: BaseFn, gs: seq<string>): set<string>
  {
    set g | g in gs && baseOf(g).Some? :: baseOf(g).value
  }

  /** the leftovers, tagged */
  function UnparsedSet(baseOf: BaseFn, gs: seq<string>): set<string>
  {
    set g | g in gs && baseOf(g).None? :: UnparsedTag + g
  }

  /** with no base among the inputs, the result is the sorted distinct inputs themselves */
  lemma {:induction false} NoBaseKeepsInputs(baseOf: BaseFn, gs: seq<string>)
    requires forall g :: g in gs ==> baseOf(g).None?
    ensures Dedupe(baseOf, gs) == SortedSet(gs)
  {
    BasesSpec(baseOf, gs);
    if Bases(baseOf, gs) != [] {
      assert Bases(baseOf, gs)[0] in Bases(baseOf, gs);
    }
  }

  /** the sorted bases are untagged and the tagged leftovers tagged */
  lemma {:induction false} PartsTagged(baseOf: BaseFn, gs: seq<string>)
    requires RtcBases(baseOf)
    ensures var bs := SortedSet(Bases(baseOf, gs)); forall i :: 0 <= i < |bs| ==> !IsUnparsed(bs[i])
    ensures var ts := Tagged(SortedSet(Leftovers(baseOf, gs))); forall i :: 0 <= i < |ts| ==> IsUnparsed(ts[i])
  {
    BasesSpec(baseOf, gs);
    var bs := SortedSet(Bases(baseOf, gs));
    forall i | 0 <= i < |bs| ensures !IsUnparsed(bs[i]) {
      assert bs[i] in Bases(baseOf, gs);
      var h :| h in gs && baseOf(h) == Some(bs[i]);
      BaseNotTagged(bs[i]);
    }
    var ts := Tagged(SortedSet(Leftovers(baseOf, gs)));
    forall i | 0 <= i < |ts| ensures IsUnparsed(ts[i]) {
      assert ts[i][..|UnparsedTag|] == UnparsedTag;
    }
  }

  /** once some input has a base, the result holds exactly the bases and the tagged leftovers */
  lemma {:induction false} DedupeMembers(baseOf: BaseFn, gs: seq<string>)
    requires exists g :: g in gs && baseOf(g).Some?
    ensures forall x :: x in Dedupe(baseOf, gs) <==> x in BaseSet(baseOf, gs) || x in UnparsedSet(baseOf, gs)
  {
    var g :| g in gs && baseOf(g).Some?;
    assert Bases(baseOf, gs) != [] by {
      BasesSpec(baseOf, gs);
      assert baseOf(g).value in Bases(baseOf, gs);
    }
    var bs, ts := SortedSet(Bases(baseOf, gs)), Tagged(SortedSet(Leftovers(baseOf, gs)));
    assert Dedupe(baseOf, gs) == bs + ts;
    BaseMembers(baseOf, gs);
    TaggedMembers(baseOf, gs);
  }

  /** the sorted bases are exactly the bases of the inputs */
  lemma {:induction false} BaseMembers(baseOf: BaseFn, gs: seq<string>)
    ensures forall x :: x in SortedSet(Bases(baseOf, gs)) <==> x in BaseSet(baseOf, gs)
  {
    BasesSpec(baseOf, gs);
  }

  /** the tagged leftovers are exactly the tagged inputs without a base */
  lemma {:induction false} TaggedMembers(baseOf: BaseFn, gs: seq<string>)
    ensures forall x :: x in Tagged(SortedSet(Leftovers(baseOf, gs))) <==> x in UnparsedSet(baseOf, gs)
  {
    BasesSpec(baseOf, gs);
    var ls := SortedSet(Leftovers(baseOf, gs));
    var ts := Tagged(ls);
    forall x ensures x in ts <==> x in UnparsedSet(baseOf, gs) {
      if x in ts {
        var i :| 0 <= i < |ts| && ts[i] == x;
        assert ls[i] in Leftovers(baseOf, gs);
      }
      if x in UnparsedSet(baseOf, gs) {
        var h :| h in gs && baseOf(h).None? && x == UnparsedTag + h;
        assert h in ls;
        var i :| 0 <= i < |ls| && ls[i] == h;
        assert ts[i] == x;
      }
    }
  }

  /** once some input has a base, every base comes before every tagged leftover, and each
    * part is strictly ascending */
  lemma {:induction false} DedupeOrder(baseOf: BaseFn, gs: seq<string>)
    requires RtcBases(baseOf)
    requires exists g :: g in gs && baseOf(g).Some?
    ensures var r := Dedupe(baseOf, gs);
      && (forall i, j :: 0 <= i < j < |r| && IsUnparsed(r[i]) ==> IsUnparsed(r[j]))
      && (forall i, j :: 0 <= i < j < |r| && IsUnparsed(r[i]) == IsUnparsed(r[j]) ==> LexLt(r[i], r[j]))
  {
    BasesSpec(baseOf, gs);
    var g :| g in gs && baseOf(g).Some?;
    assert baseOf(g).value in Bases(baseOf, gs);
    PartsTagged(baseOf, gs);
    var bs, ls := SortedSet(Bases(baseOf, gs)), SortedSet(Leftovers(baseOf, gs));
    var ts := Tagged(ls);
    forall i, j | 0 <= i < j < |ts| ensures LexLt(ts[i], ts[j]) {
      TaggedOrder(ls[i], ls[j], UnparsedTag);
    }
    assert Dedupe(baseOf, gs) == bs + ts;
    PartsInOrder(bs, ts);
  }

  /** untagged names ascending, then tagged names ascending */
  lemma {:induction false} PartsInOrder(bs: seq<string>, ts: seq<string>)
    requires StrictlySorted(bs) && StrictlySorted(ts)
    requires forall i :: 0 <= i < |bs| ==> !IsUnparsed(bs[i])
    requires forall i :: 0 <= i < |ts| ==> IsUnparsed(ts[i])
    ensures var r := bs + ts;
      && (forall i, j :: 0 <= i < j < |r| && IsUnparsed(r[i]) ==> IsUnparsed(r[j]))
      && (forall i, j :: 0 <= i < j < |r| && IsUnparsed(r[i]) == IsUnparsed(r[j]) ==> LexLt(r[i], r[j]))
  {
    var r := bs + ts;
    assert forall i :: 0 <= i < |r| ==> (IsUnparsed(r[i]) <==> i >= |bs|) by {
      forall i | 0 <= i < |r| ensures IsUnparsed(r[i]) <==> i >= |bs| {
        if i < |bs| { assert r[i] == bs[i]; } else { assert r[i] == ts[i - |bs|]; }
      }
    }
    forall i, j | 0 <= i < j < |r| && IsUnparsed(r[i]) == IsUnparsed(r[j]) ensures LexLt(r[i], r[j]) {
      if j < |bs| { assert r[i] == bs[i] && r[j] == bs[j]; }
      else { assert r[i] == ts[i - |bs|] && r[j] == ts[j - |bs|]; }
    }
  }

  /** the result never lists a name twice */
  lemma {:induction false} DedupeDistinct(baseOf: BaseFn, gs: seq<string>)
    requires RtcBases(baseOf)
    ensures Distinct(Dedupe(baseOf, gs))
  {
    var r := Dedupe(baseOf, gs);
    if Bases(baseOf, gs) == [] {
      forall i, j | 0 <= i < j < |r| ensures r[i] != r[j] { StrictlySortedDistinct(r, i, j); }
    } else {
      BasesSpec(baseOf, gs);
      assert Bases(baseOf, gs)[0] in Bases(baseOf, gs);
      DedupeOrder(baseOf, gs);
      forall i, j | 0 <= i < j < |r| ensures r[i] != r[j] {
        if IsUnparsed(r[i]) == IsUnparsed(r[j]) {
          assert LexLt(r[i], r[j]);
          LexLtIrreflexive(r[i]);
        }
      }
    }
  }

  // ---------------------------------------------------------- analyze_inputs

  /** what the acquisition-time step makes of a base: no `_YYYYMMDDThhmmssZ_` token,
    * a token `strptime` rejects (the `ValueError` ends the run), or a time */
  datatype Reading = NoToken | Invalid | At(t: UtcTime)

  function TimeOf(b: string): Reading
  {
    match TimeTokenOf(b)
    case None => NoToken
    case Some(tok) =>
      match ParseCompactStamp(tok)
      case None => Invalid
      case Some(t) => At(t)
  }

  /** the track and time recognizers, kept parameters for the proofs */
  type TrackFn = string -> Option<string>
  type TimeFn = string -> Reading

  const UnparsedNote := "Some InputGranules could not be normalized (UNPARSED entries present)."

  function TrackNote(b: string): string { "Could not parse track from '" + b + "'" }

  function TimeNote(b: string): string { "Could not parse acquisition time from '" + b + "'" }

  /** the loop's state: tracks as found (the source's set, read only through
    * `SortedSet`), times in input order, notes in input order */
  datatype Scan = Scan(tracks: seq<string>, times: seq<UtcTime>, notes: seq<string>)

  /** one iteration of the loop over `rtc_bases`; None when `parse_time_utc` raises */
  function ScanStep(trackOf: TrackFn, timeOf: TimeFn, a: Scan, b: string): Option<Scan>
  {
    if IsUnparsed(b) then Some(a.(notes := a.notes + [UnparsedNote]))
    else
      var a1 := match trackOf(b)
        case Some(t) => a.(tracks := a.tracks + [t])
        case None => a.(notes := a.notes + [TrackNote(b)]);
      match timeOf(b)
      case NoToken => Some(a1.(notes := a1.notes + [TimeNote(b)]))
      case Invalid => None
      case At(t) => Some(a1.(times := a1.times + [t]))
  }

  function ScanAll(trackOf: TrackFn, timeOf: TimeFn, bs: seq<string>): Option<Scan>
  {
    if bs == [] then Some(Scan([], [], []))
    else
      match ScanAll(trackOf, timeOf, bs[..|bs| - 1])
      case None => None
      case Some(a) => ScanStep(trackOf, timeOf, a, bs[|bs| - 1])
  }

  /** what `analyze_inputs` returns: the track set (as a strictly ascending list),
    * the times, and the distinct notes sorted and joined with `; ` */
  datatype Analysis = Analysis(tracks: seq<string>, times: seq<UtcTime>, notes: string)

  function Analyze(trackOf: TrackFn, timeOf: TimeFn, bs: seq<string>): Option<Analysis>
  {
    match ScanAll(trackOf, timeOf, bs)
    case None => None
    case Some(a) => Some(Analysis(SortedSet(a.tracks), a.times, Join(SortedSet(a.notes), "; ")))
  }

  /** once the scan has failed, it stays failed */
  lemma {:induction false} ScanSticks(trackOf: TrackFn, timeOf: TimeFn, bs: seq<string>, i: nat)
    requires i <= |bs| && ScanAll(trackOf, timeOf, bs[..i]).None?
    ensures ScanAll(trackOf, timeOf, bs).None?
    decreases |bs| - i
  {
    if i < |bs| {
      assert bs[..i + 1][..i] == bs[..i];
      ScanSticks(trackOf, timeOf, bs, i + 1);
    } else {
      assert bs[..i] == bs;
    }
  }

  /** `analyze_inputs(rtc_bases)` */
  method AnalyzeInputs(bs: seq<string>) returns (r: Option<Analysis>)
    ensures r == Analyze(TrackOf, TimeOf, bs)
  {
    var tracks: seq<string> := [];
    var times: seq<UtcTime> := [];
    var notes: seq<string> := [];
    for i := 0 to |bs|
      invariant ScanAll(TrackOf, TimeOf, bs[..i]) == Some(Scan(tracks, times, notes))
    {
      assert bs[..i + 1][..i] == bs[..i];
      var b := bs[i];
      if IsUnparsed(b) {
        notes := notes + [UnparsedNote];
      } else {
        match TrackOf(b) {
          case Some(t) => tracks := tracks + [t];
          case None => notes := notes + [TrackNote(b)];
        }
        match TimeOf(b) {
          case NoToken => notes := notes + [TimeNote(b)];
          case Invalid =>
            ScanSticks(TrackOf, TimeOf, bs, i + 1);
            return None;
          case At(t) => times := times + [t];
        }
      }
    }
    assert bs[..|bs|] == bs;
    r := Some(Analysis(SortedSet(tracks), times, Join(SortedSet(notes), "; ")));
  }

  /** the scan fails exactly when some parsed base carries a time token `strptime` rejects */
  lemma {:induction false} ScanFails(trackOf: TrackFn, timeOf: TimeFn, bs: seq<string>)
    ensures ScanAll(trackOf, timeOf, bs).None? <==> exists b :: b in bs && !IsUnparsed(b) && timeOf(b).Invalid?
  {
    if bs != [] {
      var init, last := bs[..|bs| - 1], bs[|bs| - 1];
      assert bs == init + [last];
      ScanFails(trackOf, timeOf, init);
      if exists b :: b in bs && !IsUnparsed(b) && timeOf(b).Invalid? {
        var b :| b in bs && !IsUnparsed(b) && timeOf(b).Invalid?;
        if b != last { assert b in init; }
      }
    }
  }

  /** the tracks are the tracks of the parsed bases */
  lemma {:induction false} ScanTracks(trackOf: TrackFn, timeOf: TimeFn, bs: seq<string>, a: Scan)
    requires ScanAll(trackOf, timeOf, bs) == Some(a)
    ensures forall x :: x in a.tracks <==> exists b :: b in bs && !IsUnparsed(b) && trackOf(b) == Some(x)
  {
    if bs != [] {
      var init, last := bs[..|bs| - 1], bs[|bs| - 1];
      assert bs == init + [last];
      var p := ScanAll(trackOf, timeOf, init).value;
      ScanTracks(trackOf, timeOf, init, p);
      StepTracks(trackOf, timeOf, p, last, a);
      forall x ensures x in a.tracks <==> exists b :: b in bs && !IsUnparsed(b) && trackOf(b) == Some(x) {
        if exists b :: b in bs && !IsUnparsed(b) && trackOf(b) == Some(x) {
          var b :| b in bs && !IsUnparsed(b) && trackOf(b) == Some(x);
          if b != last { assert b in init; }
        }
      }
    }
  }

  /** a step adds the track of a parsed base that has one */
  lemma {:induction false} StepTracks(trackOf: TrackFn, timeOf: TimeFn, p: Scan, b: string, a: Scan)
    requires ScanStep(trackOf, timeOf, p, b) == Some(a)
    ensures a.tracks == p.tracks + (if !IsUnparsed(b) && trackOf(b).Some? then [trackOf(b).value] else [])
  {}

  /** a step adds the notes its base contributes */
  lemma {:induction false} StepNotes(trackOf: TrackFn, timeOf: TimeFn, p: Scan, b: string, a: Scan)
    requires ScanStep(trackOf, timeOf, p, b) == Some(a)
    ensures forall x :: x in a.notes <==> x in p.notes || NoteFor(trackOf, timeOf, b, x)
  {
    if !IsUnparsed(b) {
      var n1 := if trackOf(b).None? then [TrackNote(b)] else [];
      var n2 := if timeOf(b).NoToken? then [TimeNote(b)] else [];
      assert a.notes == p.notes + n1 + n2;
    }
  }

  /** a step adds the acquisition time of a parsed base that has one */
  lemma {:induction false} StepTimes(trackOf: TrackFn, timeOf: TimeFn, p: Scan, b: string, a: Scan)
    requires ScanStep(trackOf, timeOf, p, b) == Some(a)
    ensures a.times == p.times + (if !IsUnparsed(b) && timeOf(b).At? then [timeOf(b).t] else [])
  {}

  /** the times are the acquisition times of the parsed bases, one per base that has one */
  lemma {:induction false} ScanTimes(trackOf: TrackFn, timeOf: TimeFn, bs: seq<string>, a: Scan)
    requires ScanAll(trackOf, timeOf, bs) == Some(a)
    ensures forall t :: t in a.times <==> exists b :: b in bs && !IsUnparsed(b) && timeOf(b) == At(t)
    ensures |a.times| <= |bs|
  {
    if bs != [] {
      var init, last := bs[..|bs| - 1], bs[|bs| - 1];
      assert bs == init + [last];
      var p := ScanAll(trackOf, timeOf, init).value;
      ScanTimes(trackOf, timeOf, init, p);
      StepTimes(trackOf, timeOf, p, last, a);
      forall t ensures t in a.times <==> exists b :: b in bs && !IsUnparsed(b) && timeOf(b) == At(t) {
        if exists b :: b in bs && !IsUnparsed(b) && timeOf(b) == At(t) {
          var b :| b in bs && !IsUnparsed(b) && timeOf(b) == At(t);
          if b != last { assert b in init; }
        }
      }
    }
  }

  /** the note base `b` contributes: the `UNPARSED::` note, a missing track, a missing time token */
  predicate NoteFor(trackOf: TrackFn, timeOf: TimeFn, b: string, x: string)
  {
    if IsUnparsed(b) then x == UnparsedNote
    else (trackOf(b).None? && x == TrackNote(b)) || (timeOf(b).NoToken? && x == TimeNote(b))
  }

  /** the notes are exactly the notes the inputs contribute */
  lemma {:induction false} ScanNotes(trackOf: TrackFn, timeOf: TimeFn, bs: seq<string>, a: Scan)
    requires ScanAll(trackOf, timeOf, bs) == Some(a)
    ensures forall x :: x in a.notes <==> exists b :: b in bs && NoteFor(trackOf, timeOf, b, x)
  {
    if bs != [] {
      var init, last := bs[..|bs| - 1], bs[|bs| - 1];
      assert bs == init + [last];
      var p := ScanAll(trackOf, timeOf, init).value;
      ScanNotes(trackOf, timeOf, init, p);
      StepNotes(trackOf, timeOf, p, last, a);
      forall x ensures x in a.notes <==> exists b :: b in bs && NoteFor(trackOf, timeOf, b, x) {
        if x in p.notes {
          var b :| b in init && NoteFor(trackOf, timeOf, b, x);
          assert b in bs;
        }
        if exists b :: b in bs && NoteFor(trackOf, timeOf, b, x) {
          var b :| b in bs && NoteFor(trackOf, timeOf, b, x);
          if b != last { assert b in init; }
        }
      }
    }
  }

  // ------------------------------------------------------------ failure rule

  /** `min(times)`: the first of the earliest times */
  function Earliest(ts: seq<UtcTime>): (t: UtcTime)
    requires ts != []
    ensures t in ts && forall u :: u in ts ==> Micros(t) <= Micros(u)
  {
    if |ts| == 1 then ts[0]
    else
      var m := Earliest(ts[1..]);
      if Micros(ts[0]) <= Micros(m) then ts[0] else m
  }

  /** `max(times)`: the first of the latest times */
  function Latest(ts: seq<UtcTime>): (t: UtcTime)
    requires ts != []
    ensures t in ts && forall u :: u in ts ==> Micros(u) <= Micros(t)
  {
    if |ts| == 1 then ts[0]
    else
      var m := Latest(ts[1..]);
      if Micros(ts[0]) >= Micros(m) then ts[0] else m
  }

  /** minutes from `a` to `b` */
  function Minutes(a: UtcTime, b: UtcTime): real
  {
    (Micros(b) - Micros(a)) as real / 60000000.0
  }

  /** `(notes + "; " if notes else "") + x` */
  function AddNote(notes: string, x: string): string
  {
    (if notes != "" then notes + "; " else "") + x
  }

  /** the failure fields main computes for a granule that fails the rule */
  datatype Verdict = Verdict(tmin: string, tmax: string, span: real, notes: string)

  /** steps 6 and 7 of main: None when the granule passes; `fmt` renders `{:.2f}` */
  function Judge(maxSpan: real, fmt: real -> string, a: Analysis): (r: Option<Verdict>)
    ensures r.Some? ==> r.value.span >= 0.0
  {
    var mixed := |a.tracks| > 1;
    if a.times != [] then
      var lo, hi := Earliest(a.times), Latest(a.times);
      var span := Minutes(lo, hi);
      var timeFail := span > maxSpan;
      if mixed || timeFail then
        var n1 := if mixed then AddNote(a.notes, "Mixed tracks detected") else a.notes;
        var n2 := if timeFail
          then AddNote(n1, "Acquisition time span " + fmt(span) + " min exceeds " + fmt(maxSpan))
          else n1;
        Some(Verdict(IsoStampZ(lo), IsoStampZ(hi), span, n2))
      else None
    else
      var n0 := AddNote(a.notes, "No parsable acquisition times found");
      Some(Verdict("", "", 0.0, if mixed then AddNote(n0, "Mixed tracks detected") else n0))
  }

  /** some two acquisition times lie more than `maxSpan` minutes apart */
  predicate SpreadExceeds(ts: seq<UtcTime>, maxSpan: real)
  {
    exists i, j :: 0 <= i < |ts| && 0 <= j < |ts| && Minutes(ts[i], ts[j]) > maxSpan
  }

  /** the earliest and the latest time lie more than `maxSpan` apart exactly when some two times do */
  lemma {:induction false} SpanRule(ts: seq<UtcTime>, maxSpan: real)
    requires ts != []
    ensures Minutes(Earliest(ts), Latest(ts)) > maxSpan <==> SpreadExceeds(ts, maxSpan)
  {
    var lo, hi := Earliest(ts), Latest(ts);
    var i :| 0 <= i < |ts| && ts[i] == lo;
    var j :| 0 <= j < |ts| && ts[j] == hi;
    if Minutes(lo, hi) > maxSpan {
      assert Minutes(ts[i], ts[j]) > maxSpan;
    }
    forall i', j' | 0 <= i' < |ts| && 0 <= j' < |ts| ensures Minutes(ts[i'], ts[j']) <= Minutes(lo, hi) {
      assert ts[i'] in ts && ts[j'] in ts;
    }
  }

  /** a granule fails exactly when its inputs span several tracks, carry no
    * acquisition time, or hold two times more than `maxSpan` minutes apart */
  lemma {:induction false} FailureRule(maxSpan: real, fmt: real -> string, a: Analysis)
    ensures Judge(maxSpan, fmt, a).Some? <==> |a.tracks| > 1 || a.times == [] || SpreadExceeds(a.times, maxSpan)
  {
    if a.times != [] {
      SpanRule(a.times, maxSpan);
    }
  }

  // -------------------------------------------------------------------- main

  /** a CMR search entry; an absent key is None */
  datatype Entry = Entry(title: Option<string>, granuleUr: Option<string>, id: Option<string>,
                         timeStart: Option<string>, timeEnd: Option<string>, boxes: seq<string>)

  /** an `InputGranules` item: anything but a dict carrying `GranuleUR`, rendered by
    * `str`, or a dict with (or without) that key, `text` being its `str` */
  datatype InputItem = Named(name: string) | Record(granuleUr: Option<string>, text: string)

  /** the UMM-JSON of one granule: `GranuleUR` and `InputGranules` (absent or empty: `[]`) */
  datatype Umm = Umm(granuleUr: Option<string>, inputs: seq<InputItem>)

  /** `fetch_umm(concept_id)`: the metadata, or the text of the exception it raised */
  type Fetcher = string -> Result<Umm, string>

  /** `value or default` on an optional string: absent and empty both fall through */
  function Or(v: Option<string>, default: string): (r: string)
    ensures v.Some? && v.value != "" ==> r == v.value
    ensures v.None? || v.value == "" ==> r == default
  {
    if v.Some? && v.value != "" then v.value else default
  }

  /** `get_bbox_str`: the first box, or empty */
  function BboxOf(e: Entry): string { if e.boxes != [] then e.boxes[0] else "" }

  /** the granule name main reports: `title or granule_ur or ""` */
  function DswxUr(e: Entry): string { Or(e.title, Or(e.granuleUr, "")) }

  /** step 3 of main on one item */
  function RawName(it: InputItem): string
  {
    match it
    case Named(n) => n
    case Record(ur, text) => if ur.Some? then ur.value else text
  }

  function RawInputs(items: seq<InputItem>): (r: seq<string>)
    ensures |r| == |items| && forall i :: 0 <= i < |items| ==> r[i] == RawName(items[i])
  {
    seq(|items|, i requires 0 <= i < |items| => RawName(items[i]))
  }

  /** one CSV row; `span` None is the source's NaN */
  datatype Failure = Failure(granuleUr: string, conceptId: string, startTime: string, endTime: string,
                             bbox: string, tracksFound: seq<string>, acqMin: string, acqMax: string,
                             span: Option<real>, rtcInputs: seq<string>, notes: string)

  /** what main makes of one entry; `noInputs` marks the `missing_inputgranules` case */
  datatype Inspection = Pass | Fail(failure: Failure, noInputs: bool)

  const NoInputsNote := "No InputGranules found in UMM metadata"

  /** steps 1 to 7 of main on one entry; None when `parse_time_utc` raises */
  function Inspect(fetch: Fetcher, maxSpan: real, fmt: real -> string, e: Entry): (r: Option<Inspection>)
    ensures fetch(Or(e.id, "")).Err? ==> r.Some? && r.value.Fail? && !r.value.noInputs
    ensures (r.Some? && r.value.Fail? && r.value.noInputs) <==>
      fetch(Or(e.id, "")).Ok? && fetch(Or(e.id, "")).value.inputs == []
  {
    var ur, id := DswxUr(e), Or(e.id, "");
    var start, end, box := Or(e.timeStart, ""), Or(e.timeEnd, ""), BboxOf(e);
    match fetch(id)
    case Err(msg) =>
      Some(Fail(Failure(ur, id, start, end, box, [], "", "", None, [], "UMM fetch failed: " + msg), false))
    case Ok(umm) =>
      var name := Or(umm.granuleUr, ur);
      if umm.inputs == [] then
        Some(Fail(Failure(name, id, start, end, box, [], "", "", None, [], NoInputsNote), true))
      else
        var rtc := Dedupe(BaseOf, RawInputs(umm.inputs));
        match Analyze(TrackOf, TimeOf, rtc)
        case None => None
        case Some(a) =>
          match Judge(maxSpan, fmt, a)
          case None => Some(Pass)
          case Some(v) =>
            Some(Fail(Failure(name, id, start, end, box, a.tracks, v.tmin, v.tmax, Some(v.span), rtc, v.notes), false))
  }

  /** one iteration of main's loop */
  method InspectEntry(fetch: Fetcher, maxSpan: real, fmt: real -> string, e: Entry) returns (r: Option<Inspection>)
    ensures r == Inspect(fetch, maxSpan, fmt, e)
  {
    var ur, id := DswxUr(e), Or(e.id, "");
    var start, end, box := Or(e.timeStart, ""), Or(e.timeEnd, ""), BboxOf(e);
    var umm;
    match fetch(id) {
      case Err(msg) =>
        return Some(Fail(Failure(ur, id, start, end, box, [], "", "", None, [], "UMM fetch failed: " + msg), false));
      case Ok(u) => umm := u;
    }
    var name := Or(umm.granuleUr, ur);
    if umm.inputs == [] {
      return Some(Fail(Failure(name, id, start, end, box, [], "", "", None, [], NoInputsNote), true));
    }
    var raw: seq<string> := [];
    for i := 0 to |umm.inputs|
      invariant raw == RawInputs(umm.inputs[..i])
    {
      raw := raw + [RawName(umm.inputs[i])];
    }
    assert umm.inputs[..|umm.inputs|] == umm.inputs;
    var rtc := DedupeRtcInputs(raw);
    var analysis := AnalyzeInputs(rtc);
    if analysis.None? {
      return None;
    }
    var a := analysis.value;
    match Judge(maxSpan, fmt, a) {
      case None => r := Some(Pass);
      case Some(v) =>
        r := Some(Fail(Failure(name, id, start, end, box, a.tracks, v.tmin, v.tmax, Some(v.span), rtc, v.notes), false));
    }
  }

  /** main's counters and failure list */
  datatype Tally = Tally(failures: seq<Failure>, total: nat, missing: nat)

  function Count(t: Tally, x: Inspection): Tally
  {
    Tally(t.failures + (if x.Fail? then [x.failure] else []), t.total + 1,
          t.missing + (if x.Fail? && x.noInputs then 1 else 0))
  }

  /** what main does with each entry, kept a parameter of the loop's specification */
  type Inspector = Entry -> Option<Inspection>

  /** main's loop over the search results; None when an entry raises */
  function Tallied(inspect: Inspector, es: seq<Entry>): Option<Tally>
  {
    if es == [] then Some(Tally([], 0, 0))
    else
      match Tallied(inspect, es[..|es| - 1])
      case None => None
      case Some(t) =>
        match inspect(es[|es| - 1])
        case None => None
        case Some(x) => Some(Count(t, x))
  }

  function EntryCheck(fetch: Fetcher, maxSpan: real, fmt: real -> string): Inspector
  {
    e => Inspect(fetch, maxSpan, fmt, e)
  }

  lemma {:induction false} TalliedSticks(inspect: Inspector, es: seq<Entry>, i: nat)
    requires i <= |es| && Tallied(inspect, es[..i]).None?
    ensures Tallied(inspect, es).None?
    decreases |es| - i
  {
    if i < |es| {
      assert es[..i + 1][..i] == es[..i];
      TalliedSticks(inspect, es, i + 1);
    } else {
      assert es[..i] == es;
    }
  }

  /** main's loop over the entries of the search */
  method Audit(fetch: Fetcher, maxSpan: real, fmt: real -> string, es: seq<Entry>) returns (r: Option<Tally>)
    ensures r == Tallied(EntryCheck(fetch, maxSpan, fmt), es)
  {
    ghost var inspect := EntryCheck(fetch, maxSpan, fmt);
    var failures: seq<Failure> := [];
    var total: nat, missing: nat := 0, 0;
    for i := 0 to |es|
      invariant Tallied(inspect, es[..i]) == Some(Tally(failures, total, missing))
    {
      assert es[..i + 1][..i] == es[..i];
      var x := InspectEntry(fetch, maxSpan, fmt, es[i]);
      assert x == inspect(es[i]);
      if x.None? {
        TalliedSticks(inspect, es, i + 1);
        return None;
      }
      ghost var next := Count(Tally(failures, total, missing), x.value);
      assert Tallied(inspect, es[..i + 1]) == Some(next) by {
        assert es[..i + 1][i] == es[i];
      }
      total := total + 1;
      if x.value.Fail? {
        if x.value.noInputs {
          missing := missing + 1;
        }
        failures := failures + [x.value.failure];
      }
      assert next == Tally(failures, total, missing);
    }
    assert es[..|es|] == es;
    r := Some(Tally(failures, total, missing));
  }

  /** `return 2 if failures else 0` */
  function ExitCode(t: Tally): (code: int)
    ensures code == 0 || code == 2
    ensures code == 2 <==> t.failures != []
  {
    if t.failures != [] then 2 else 0
  }

  /** `x` is a failure recording `f` */
  predicate FailsWith(x: Option<Inspection>, f: Failure) { x.Some? && x.value.Fail? && x.value.failure == f }

  /** every entry is counted, a granule without inputs is both missing and failed,
    * and the failure list holds exactly the failures of the entries */
  lemma {:induction false} TalliedCounts(inspect: Inspector, es: seq<Entry>, t: Tally)
    requires Tallied(inspect, es) == Some(t)
    ensures t.total == |es| && t.missing <= |t.failures| <= t.total
    ensures forall f :: f in t.failures <==> exists i :: 0 <= i < |es| && FailsWith(inspect(es[i]), f)
    ensures t.failures == [] <==> forall i :: 0 <= i < |es| ==> inspect(es[i]) == Some(Pass)
  {
    TalliedTotals(inspect, es, t);
    TalliedFailures(inspect, es, t);
    TalliedPasses(inspect, es, t);
  }

  lemma {:induction false} TalliedTotals(inspect: Inspector, es: seq<Entry>, t: Tally)
    requires Tallied(inspect, es) == Some(t)
    ensures t.total == |es| && t.missing <= |t.failures| <= t.total
  {
    if es != [] {
      TalliedTotals(inspect, es[..|es| - 1], Tallied(inspect, es[..|es| - 1]).value);
    }
  }

  lemma {:induction false} TalliedFailures(inspect: Inspector, es: seq<Entry>, t: Tally)
    requires Tallied(inspect, es) == Some(t)
    ensures forall f :: f in t.failures <==> exists i :: 0 <= i < |es| && FailsWith(inspect(es[i]), f)
  {
    if es != [] {
      var init, last := es[..|es| - 1], es[|es| - 1];
      var p := Tallied(inspect, init).value;
      TalliedFailures(inspect, init, p);
      var x := inspect(last).value;
      assert t.failures == p.failures + (if x.Fail? then [x.failure] else []);
      forall f ensures f in t.failures <==> exists i :: 0 <= i < |es| && FailsWith(inspect(es[i]), f) {
        if f in p.failures {
          var i :| 0 <= i < |init| && FailsWith(inspect(init[i]), f);
          assert init[i] == es[i];
        } else if f in t.failures {
          assert FailsWith(inspect(es[|es| - 1]), f);
        }
        if exists i :: 0 <= i < |es| && FailsWith(inspect(es[i]), f) {
          var i :| 0 <= i < |es| && FailsWith(inspect(es[i]), f);
          if i < |init| {
            assert init[i] == es[i];
            assert f in p.failures;
          }
        }
      }
    }
  }

  lemma {:induction false} TalliedPasses(inspect: Inspector, es: seq<Entry>, t: Tally)
    requires Tallied(inspect, es) == Some(t)
    ensures t.failures == [] <==> forall i :: 0 <= i < |es| ==> inspect(es[i]) == Some(Pass)
  {
    if es != [] {
      var init, last := es[..|es| - 1], es[|es| - 1];
      var p := Tallied(inspect, init).value;
      TalliedPasses(inspect, init, p);
      assert forall i :: 0 <= i < |init| ==> init[i] == es[i];
      var x := inspect(last).value;
      assert t.failures == p.failures + (if x.Fail? then [x.failure] else []);
    }
  }

  /** the loop raises exactly when some entry raises */
  lemma {:induction false} TalliedRaises(inspect: Inspector, es: seq<Entry>)
    ensures Tallied(inspect, es).None? <==> exists i :: 0 <= i < |es| && inspect(es[i]).None?
  {
    if es != [] {
      var init := es[..|es| - 1];
      TalliedRaises(inspect, init);
      if exists i :: 0 <= i < |init| && inspect(init[i]).None? {
        var i :| 0 <= i < |init| && inspect(init[i]).None?;
        assert init[i] == es[i];
      }
      if exists i :: 0 <= i < |es| && inspect(es[i]).None? {
        var i :| 0 <= i < |es| && inspect(es[i]).None?;
        if i < |init| { assert init[i] == es[i]; }
      }
    }
  }

  /** the audit exits 0 exactly when every granule passes */
  lemma {:induction false} ExitZero(inspect: Inspector, es: seq<Entry>, t: Tally)
    requires Tallied(inspect, es) == Some(t)
    ensures ExitCode(t) == 0 <==> forall i :: 0 <= i < |es| ==> inspect(es[i]) == Some(Pass)
  {
    TalliedCounts(inspect, es, t);
  }

  /** what `analyze_inputs` returns: the distinct tracks of the parsed bases in ascending
    * order, their acquisition times, and None exactly when a time token is not a date */
  lemma {:induction false} AnalyzeSpec(trackOf: TrackFn, timeOf: TimeFn, bs: seq<string>)
    ensures Analyze(trackOf, timeOf, bs).None? <==> exists b :: b in bs && !IsUnparsed(b) && timeOf(b).Invalid?
    ensures Analyze(trackOf, timeOf, bs).Some? ==>
      var a := Analyze(trackOf, timeOf, bs).value;
      StrictlySorted(a.tracks)
      && (forall x :: x in a.tracks <==> exists b :: b in bs && !IsUnparsed(b) && trackOf(b) == Some(x))
      && (forall t :: t in a.times <==> exists b :: b in bs && !IsUnparsed(b) && timeOf(b) == At(t))
  {
    ScanFails(trackOf, timeOf, bs);
    if ScanAll(trackOf, timeOf, bs).Some? {
      var s := ScanAll(trackOf, timeOf, bs).value;
      ScanTracks(trackOf, timeOf, bs, s);
      ScanTimes(trackOf, timeOf, bs, s);
    }
  }

  /** the RTC inputs main analyzes for a granule's metadata */
  function RtcInputs(umm: Umm): seq<string> { Dedupe(BaseOf, RawInputs(umm.inputs)) }

  /** an entry passes exactly when its metadata arrives, lists inputs, and their
    * analysis finds at most one track, some time, and no two times too far apart */
  lemma {:induction false} InspectPasses(fetch: Fetcher, maxSpan: real, fmt: real -> string, e: Entry)
    ensures Inspect(fetch, maxSpan, fmt, e) == Some(Pass) <==>
      var r := fetch(Or(e.id, ""));
      r.Ok? && r.value.inputs != [] && Analyze(TrackOf, TimeOf, RtcInputs(r.value)).Some?
      && var a := Analyze(TrackOf, TimeOf, RtcInputs(r.value)).value;
      |a.tracks| <= 1 && a.times != [] && !SpreadExceeds(a.times, maxSpan)
  {
    var r := fetch(Or(e.id, ""));
    if r.Ok? && r.value.inputs != [] {
      var an := Analyze(TrackOf, TimeOf, RtcInputs(r.value));
      if an.Some? {
        FailureRule(maxSpan, fmt, an.value);
      }
    }
  }

  /** an entry raises exactly when its metadata lists inputs one of whose time tokens is not a date */
  lemma {:induction false} InspectRaises(fetch: Fetcher, maxSpan: real, fmt: real -> string, e: Entry)
    ensures Inspect(fetch, maxSpan, fmt, e).None? <==>
      var r := fetch(Or(e.id, ""));
      r.Ok? && r.value.inputs != [] && exists b :: b in RtcInputs(r.value) && !IsUnparsed(b) && TimeOf(b).Invalid?
  {
    var r := fetch(Or(e.id, ""));
    if r.Ok? && r.value.inputs != [] {
      AnalyzeSpec(TrackOf, TimeOf, RtcInputs(r.value));
    }
  }

  // ---------------------------------------------------------------- _request

  /** what one `session.get` does: a response with its status code, or an exception */
  datatype Attempt = Reply(status: int) | Raised(error: string)

  /** a server error or an exception: `_request` sleeps and tries again */
  predicate Retryable(a: Attempt) { a.Raised? || a.status >= 500 }

  /** `_request`'s end: the response it returns, or the `RuntimeError` after the last
    * try, which carries the last exception (None when no try raised) */
  datatype Outcome = Responded(status: int) | GaveUp(last: Option<string>)

  function Pow2(n: nat): (r: nat)
    ensures n >= 1 ==> r >= 2
  {
    if n == 0 then 1 else 2 * Pow2(n - 1)
  }

  /** `min(2 ** (i + 1), 10)` seconds */
  function Backoff(i: nat): (s: nat)
    ensures 2 <= s <= 10
  {
    if Pow2(i + 1) < 10 then Pow2(i + 1) else 10
  }

  /** `_request` from try `i` on, `last` being the last exception so far: the outcome
    * and the sleeps taken, in order */
  function RetryFrom(attempt: nat -> Attempt, tries: nat, i: nat, last: Option<string>): (Outcome, seq<nat>)
    decreases tries - i
  {
    if i >= tries then (GaveUp(last), [])
    else
      match attempt(i)
      case Reply(s) =>
        if s >= 500 then
          var rest := RetryFrom(attempt, tries, i + 1, last);
          (rest.0, [Backoff(i)] + rest.1)
        else (Responded(s), [])
      case Raised(err) =>
        var rest := RetryFrom(attempt, tries, i + 1, Some(err));
        (rest.0, [Backoff(i)] + rest.1)
  }

  /** `_request(session, url, tries=tries)`; `attempt(i)` is what the `i`-th GET does
    * and `sleeps` the `time.sleep` calls made */
  method Request(attempt: nat -> Attempt, tries: nat) returns (o: Outcome, sleeps: seq<nat>)
    ensures (o, sleeps) == RetryFrom(attempt, tries, 0, None)
  {
    var last: Option<string> := None;
    sleeps := [];
    assert sleeps + RetryFrom(attempt, tries, 0, last).1 == RetryFrom(attempt, tries, 0, last).1;
    for i := 0 to tries
      invariant RetryFrom(attempt, tries, 0, None)
        == (RetryFrom(attempt, tries, i, last).0, sleeps + RetryFrom(attempt, tries, i, last).1)
    {
      var a := attempt(i);
      if a.Reply? && a.status < 500 {
        assert RetryFrom(attempt, tries, i, last) == (Responded(a.status), []);
        assert sleeps + [] == sleeps;
        return Responded(a.status), sleeps;
      }
      RetryKeeps(attempt, tries, i, last, sleeps);
      if a.Raised? {
        last := Some(a.error);
      }
      sleeps := sleeps + [Backoff(i)];
    }
    assert sleeps + [] == sleeps;
    o := GaveUp(last);
  }

  /** a failed try adds its backoff to the sleeps and, when it raised, becomes the last
    * exception */
  lemma {:induction false} RetryKeeps(attempt: nat -> Attempt, tries: nat, i: nat, last: Option<string>, sleeps: seq<nat>)
    requires i < tries && Retryable(attempt(i))
    ensures var next := if attempt(i).Raised? then Some(attempt(i).error) else last;
      var rest := RetryFrom(attempt, tries, i + 1, next);
      (RetryFrom(attempt, tries, i, last).0, sleeps + RetryFrom(attempt, tries, i, last).1)
        == (rest.0, (sleeps + [Backoff(i)]) + rest.1)
  {
    var next := if attempt(i).Raised? then Some(attempt(i).error) else last;
    var rest := RetryFrom(attempt, tries, i + 1, next);
    assert RetryFrom(attempt, tries, i, last) == (rest.0, [Backoff(i)] + rest.1);
    assert sleeps + ([Backoff(i)] + rest.1) == (sleeps + [Backoff(i)]) + rest.1;
  }

  /** `_request` returns the first response below 500 after sleeping once per failed
    * try, with the backoff of that try; it gives up only when every try failed */
  lemma {:induction false} RetrySpec(attempt: nat -> Attempt, tries: nat, i: nat, last: Option<string>)
    requires i <= tries
    ensures var (o, z) := RetryFrom(attempt, tries, i, last);
      o.GaveUp? <==> forall j :: i <= j < tries ==> Retryable(attempt(j))
    ensures var (o, z) := RetryFrom(attempt, tries, i, last);
      o.GaveUp? ==> |z| == tries - i
    ensures var (o, z) := RetryFrom(attempt, tries, i, last);
      o.Responded? ==> o.status < 500 && i + |z| < tries && attempt(i + |z|) == Reply(o.status)
    ensures Slept(attempt, i, RetryFrom(attempt, tries, i, last).1)
    decreases tries - i
  {
    if i < tries {
      var next := if attempt(i).Raised? then Some(attempt(i).error) else last;
      if Retryable(attempt(i)) {
        RetrySpec(attempt, tries, i + 1, next);
        var rest := RetryFrom(attempt, tries, i + 1, next);
        assert RetryFrom(attempt, tries, i, last) == (rest.0, [Backoff(i)] + rest.1);
        SleptCons(attempt, i, rest.1);
      } else {
        assert RetryFrom(attempt, tries, i, last) == (Responded(attempt(i).status), []);
      }
    }
  }

  /** the sleeps follow failed tries `i`, `i + 1`, ..., and the `k`-th lasts the
    * backoff of try `i + k` */
  ghost predicate Slept(attempt: nat -> Attempt, i: nat, z: seq<nat>)
  {
    && (forall j: nat :: i <= j < i + |z| ==> Retryable(attempt(j)))
    && (forall k: int :: 0 <= k < |z| ==> z[k] == Backoff(i + k))
  }

  lemma {:induction false} SleptCons(attempt: nat -> Attempt, i: nat, z: seq<nat>)
    requires Retryable(attempt(i)) && Slept(attempt, i + 1, z)
    ensures Slept(attempt, i, [Backoff(i)] + z)
  {
    var w := [Backoff(i)] + z;
    forall k: int | 0 <= k < |w| ensures w[k] == Backoff(i + k) {
      if k > 0 {
        assert w[k] == z[k - 1];
      }
    }
  }

  /** with the default five tries all failing, the sleeps are 2, 4, 8, 10 and 10 seconds */
  lemma {:induction false} DefaultSchedule(attempt: nat -> Attempt)
    requires forall j :: 0 <= j < 5 ==> Retryable(attempt(j))
    ensures RetryFrom(attempt, 5, 0, None).0.GaveUp?
    ensures RetryFrom(attempt, 5, 0, None).1 == [2, 4, 8, 10, 10]
  {
    RetrySpec(attempt, 5, 0, None);
    var z := RetryFrom(attempt, 5, 0, None).1;
    assert Pow2(1) == 2 && Pow2(2) == 4 && Pow2(3) == 8 && Pow2(4) == 16 && Pow2(5) == 32;
    assert z[0] == 2 && z[1] == 4 && z[2] == 8 && z[3] == 10 && z[4] == 10;
  }

  // --------------------------------------------------------- cmr_search_dswx

  /** one search page: the `feed.entry` items, or the text of the error raised */
  type PageFn<E> = nat -> Result<seq<E>, string>

  /** the entries `cmr_search_dswx` yields from page `p` on; an error anywhere is the
    * error (the run ends there) */
  function ListFrom<E>(page: PageFn<E>, size: int, maxPages: int, p: nat): Result<seq<E>, string>
    decreases maxPages - p
  {
    if p > maxPages then Ok([])
    else
      match page(p)
      case Err(e) => Err(e)
      case Ok(items) =>
        if items == [] then Ok([])
        else if |items| < size then Ok(items)
        else Prepend(items, ListFrom(page, size, maxPages, p + 1))
  }

  /** `cmr_search_dswx`: pages from 1 while `page_num <= max_pages`, stopping after an
    * empty or a short page */
  method SearchDswx<E>(page: PageFn<E>, size: int, maxPages: int) returns (r: Result<seq<E>, string>)
    ensures r == ListFrom(page, size, maxPages, 1)
  {
    var pageNum: nat := 1;
    var acc: seq<E> := [];
    PrependAssoc([], [], ListFrom(page, size, maxPages, 1));
    while pageNum <= maxPages
      invariant ListFrom(page, size, maxPages, 1) == Prepend(acc, ListFrom(page, size, maxPages, pageNum))
      decreases maxPages - pageNum
    {
      match page(pageNum) {
        case Err(e) => return Err(e);
        case Ok(items) =>
          if items == [] {
            assert acc + [] == acc;
            return Ok(acc);
          }
          PrependAssoc(acc, items, ListFrom(page, size, maxPages, pageNum + 1));
          acc := acc + items;
          if |items| < size {
            return Ok(acc);
          }
      }
      pageNum := pageNum + 1;
    }
    assert acc + [] == acc;
    r := Ok(acc);
  }

  /** the listing reads no page past `maxPages` (nor before `p`) */
  lemma {:induction false} ListingLocal<E>(page1: PageFn<E>, page2: PageFn<E>, size: int, maxPages: int, p: nat)
    requires forall q :: p <= q <= maxPages ==> page1(q) == page2(q)
    ensures ListFrom(page1, size, maxPages, p) == ListFrom(page2, size, maxPages, p)
    decreases maxPages - p
  {
    if p <= maxPages {
      ListingLocal(page1, page2, size, maxPages, p + 1);
    }
  }

  /** when no page holds more than `size` entries, the listing holds at most
    * `size` entries per page from `p` to `maxPages` */
  lemma {:induction false} ListingBound<E>(page: PageFn<E>, size: int, maxPages: int, p: nat)
    requires forall q :: page(q).Ok? ==> |page(q).value| <= size
    ensures ListFrom(page, size, maxPages, p).Ok? ==>
      |ListFrom(page, size, maxPages, p).value| <= size * (if p <= maxPages then maxPages - p + 1 else 0)
    decreases maxPages - p
  {
    if p <= maxPages && page(p).Ok? && page(p).value != [] && |page(p).value| >= size {
      ListingBound(page, size, maxPages, p + 1);
      assert size * (maxPages - p + 1) == size + size * (maxPages - p);
    }
  }
}
