/** `missing_rtc_static_layers/unique_safe_ids.py`: the distinct SAFE file ids
  * found in the second column of the `safe_file_ids*.txt` CSV files, written
  * one per line in sorted order. A file is given as its rows of fields, the
  * files in the order the glob lists them. */
module UniqueSafeIds {
  import opened Base

  /** the second fields of the rows that have one */
  function RowIds(rows: seq<seq<string>>): set<string>
    decreases |rows|
  {
    if rows == [] then {}
    else
      var row := rows[|rows| - 1];
      RowIds(rows[..|rows| - 1]) + (if |row| > 1 then {row[1]} else {})
  }

  /** one file's ids: `next(reader, None)` skips the header, if any */
  function FileIds(rows: seq<seq<string>>): set<string>
  {
    if rows == [] then {} else RowIds(rows[1..])
  }

  /** the ids of all the files */
  function AllIds(files: seq<seq<seq<string>>>): set<string>
    decreases |files|
  {
    if files == [] then {} else AllIds(files[..|files| - 1]) + FileIds(files[|files| - 1])
  }

  /** `x` is the second field of a row, other than a header, of some file */
  ghost predicate IsId(files: seq<seq<seq<string>>>, x: string)
  {
    exists i, j :: 0 <= i < |files| && 1 <= j < |files[i]| && |files[i][j]| > 1 && files[i][j][1] == x
  }

  lemma {:induction false} RowIdsSpec(rows: seq<seq<string>>, x: string)
    ensures x in RowIds(rows) <==> exists j :: 0 <= j < |rows| && |rows[j]| > 1 && rows[j][1] == x
    decreases |rows|
  {
    if rows != [] {
      var init := rows[..|rows| - 1];
      RowIdsSpec(init, x);
      if x in RowIds(init) {
        var j :| 0 <= j < |init| && |init[j]| > 1 && init[j][1] == x;
        assert rows[j] == init[j];
      }
      if exists j :: 0 <= j < |rows| && |rows[j]| > 1 && rows[j][1] == x {
        var j :| 0 <= j < |rows| && |rows[j]| > 1 && rows[j][1] == x;
        if j < |init| {
          assert init[j] == rows[j];
        }
      }
    }
  }

  lemma {:induction false} FileIdsSpec(rows: seq<seq<string>>, x: string)
    ensures x in FileIds(rows) <==> exists j :: 1 <= j < |rows| && |rows[j]| > 1 && rows[j][1] == x
  {
    if rows != [] {
      RowIdsSpec(rows[1..], x);
      if exists j :: 1 <= j < |rows| && |rows[j]| > 1 && rows[j][1] == x {
        var j :| 1 <= j < |rows| && |rows[j]| > 1 && rows[j][1] == x;
        assert rows[1..][j - 1] == rows[j];
      }
    }
  }

  /** an id is collected exactly when it is the second field of a row, other
    * than a file's header, with at least two fields */
  lemma {:induction false} AllIdsSpec(files: seq<seq<seq<string>>>, x: string)
    ensures x in AllIds(files) <==> IsId(files, x)
    decreases |files|
  {
    if files != [] {
      var init, last := files[..|files| - 1], files[|files| - 1];
      AllIdsSpec(init, x);
      FileIdsSpec(last, x);
      if IsId(init, x) {
        var i, j :| 0 <= i < |init| && 1 <= j < |init[i]| && |init[i][j]| > 1 && init[i][j][1] == x;
        assert files[i] == init[i];
      }
      if x in FileIds(last) {
        var j :| 1 <= j < |last| && |last[j]| > 1 && last[j][1] == x;
        assert files[|files| - 1] == last;
      }
      if IsId(files, x) {
        var i, j :| 0 <= i < |files| && 1 <= j < |files[i]| && |files[i][j]| > 1 && files[i][j][1] == x;
        if i < |init| {
          assert init[i] == files[i];
        }
      }
    }
  }

  /** the ids do not depend on the order in which the glob lists the files */
  lemma {:induction false} AllIdsOrderFree(files: seq<seq<seq<string>>>, other: seq<seq<seq<string>>>)
    requires multiset(files) == multiset(other)
    ensures AllIds(files) == AllIds(other)
  {
    forall x ensures x in AllIds(files) <==> x in AllIds(other) {
      AllIdsSpec(files, x);
      AllIdsSpec(other, x);
      if IsId(files, x) {
        var i, j :| 0 <= i < |files| && 1 <= j < |files[i]| && |files[i][j]| > 1 && files[i][j][1] == x;
        assert files[i] in multiset(other);
        var k :| 0 <= k < |other| && other[k] == files[i];
        assert other[k][j][1] == x;
      }
      if IsId(other, x) {
        var i, j :| 0 <= i < |other| && 1 <= j < |other[i]| && |other[i][j]| > 1 && other[i][j][1] == x;
        assert other[i] in multiset(files);
        var k :| 0 <= k < |files| && files[k] == other[i];
        assert files[k][j][1] == x;
      }
    }
  }

  /** the rows of one file after its header added to the set */
  method ReadFile(rows: seq<seq<string>>, unique: set<string>) returns (r: set<string>)
    ensures r == unique + FileIds(rows)
  {
    r := unique;
    if rows == [] {
      return;
    }
    var body := rows[1..];
    for j := 0 to |body|
      invariant r == unique + RowIds(body[..j])
    {
      assert body[..j + 1][..j] == body[..j] && body[..j + 1][j] == body[j];
      if |body[j]| > 1 {
        r := r + {body[j][1]};
      }
    }
    assert body[..|body|] == body;
  }

  /** the loop over the files */
  method CollectIds(files: seq<seq<seq<string>>>) returns (unique: set<string>)
    ensures unique == AllIds(files)
  {
    unique := {};
    for i := 0 to |files|
      invariant unique == AllIds(files[..i])
    {
      assert files[..i + 1][..i] == files[..i] && files[..i + 1][i] == files[i];
      unique := ReadFile(files[i], unique);
    }
    assert files[..|files|] == files;
  }

  /** a finite non-empty set of strings has a least element */
  lemma {:induction false} LeastExists(s: set<string>)
    requires s != {}
    ensures exists m :: m in s && forall y :: y in s ==> LexLe(m, y)
    decreases |s|
  {
    var z :| z in s;
    var rest := s - {z};
    if rest == {} {
      forall y | y in s ensures LexLe(z, y) {
        assert y !in rest;
      }
    } else {
      LeastExists(rest);
      var m :| m in rest && forall y :: y in rest ==> LexLe(m, y);
      LexLtTotal(m, z);
      if LexLe(m, z) {
        assert forall y :: y in s ==> LexLe(m, y);
      } else {
        forall y | y in s ensures LexLe(z, y) {
          if y != z {
            LexLeTransitive(z, m, y);
          }
        }
      }
    }
  }

  /** `sorted(unique_ids)`: the least remaining id taken each time */
  method SortedIds(unique: set<string>) returns (out: seq<string>)
    ensures StrictlySorted(out)
    ensures forall x :: x in out <==> x in unique
  {
    out := [];
    var rest := unique;
    while rest != {}
      invariant StrictlySorted(out)
      invariant forall x :: x in unique <==> x in out || x in rest
      invariant forall x, y :: x in out && y in rest ==> LexLt(x, y)
      decreases |rest|
    {
      LeastExists(rest);
      var m :| m in rest && forall y :: y in rest ==> LexLe(m, y);
      forall y | y in rest - {m} ensures LexLt(m, y) {
        assert LexLe(m, y);
      }
      forall i, j | 0 <= i < j < |out + [m]| ensures LexLt((out + [m])[i], (out + [m])[j]) {
        if j == |out| {
          assert (out + [m])[i] == out[i];
        } else {
          assert (out + [m])[i] == out[i] && (out + [m])[j] == out[j];
        }
      }
      out := out + [m];
      rest := rest - {m};
    }
  }

  /** the output file's text: each id followed by a newline */
  function Listing(ids: seq<string>): string
    decreases |ids|
  {
    if ids == [] then "" else ids[0] + "\n" + Listing(ids[1..])
  }

  /** the written file splits back, at its newlines, into the ids and the
    * empty text after the last newline */
  lemma {:induction false} ListingSplit(ids: seq<string>)
    requires forall k :: 0 <= k < |ids| ==> '\n' !in ids[k]
    ensures Split(Listing(ids), '\n') == ids + [""]
    decreases |ids|
  {
    if ids == [] {
      SplitNone("", '\n');
    } else {
      var rest := ids[1..];
      ListingSplit(rest);
      SplitStep(ids[0], Listing(rest), rest + [""]);
      assert ids + [""] == [ids[0]] + (rest + [""]);
    }
  }

  lemma {:induction false} SplitStep(head: string, t: string, pieces: seq<string>)
    requires '\n' !in head && Split(t, '\n') == pieces
    ensures Split(head + "\n" + t, '\n') == [head] + pieces
  {
    assert head + "\n" + t == head + ['\n'] + t;
    SplitCons(head, t, '\n');
  }

  /** the writing loop */
  method WriteIds(out: seq<string>) returns (text: string)
    ensures text == Listing(out)
  {
    text := "";
    var i := |out|;
    while i > 0
      invariant 0 <= i <= |out|
      invariant text == Listing(out[i..])
    {
      i := i - 1;
      assert out[i..][1..] == out[i + 1..];
      text := out[i] + "\n" + text;
    }
  }

  /** the whole script: the ids sorted once each, and the file written */
  method Run(files: seq<seq<seq<string>>>) returns (out: seq<string>, text: string)
    ensures StrictlySorted(out)
    ensures forall x :: x in out <==> IsId(files, x)
    ensures text == Listing(out)
  {
    var unique := CollectIds(files);
    out := SortedIds(unique);
    forall x ensures x in out <==> IsId(files, x) {
      AllIdsSpec(files, x);
    }
    text := WriteIds(out);
  }

  /** the list written is determined by the files: any strictly sorted list
    * of the same ids is that list */
  lemma {:induction false} OutputDetermined(files: seq<seq<seq<string>>>, a: seq<string>, b: seq<string>)
    requires StrictlySorted(a) && forall x :: x in a <==> IsId(files, x)
    requires StrictlySorted(b) && forall x :: x in b <==> IsId(files, x)
    ensures a == b
  {
    StrictlySortedUnique(a, b);
  }
}
