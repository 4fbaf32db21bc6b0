/**
 Row projection of `src/display/ui.rs`: one tracked entity becomes a display
 row of three strings (label, secondary cell, `<upload>/<download>`), plus the
 `", "` join that builds a connection row's list of process names.
 */
module Rows {
  import opened Wrappers
  import opened Bandwidth

  /** `format_row_data`: the label and secondary cell unchanged, then the
      upload total and the download total, each formatted, joined by `/`. */
  function FormatRowData(firstCell: string, secondCell: string, uploaded: nat, downloaded: nat): (row: seq<string>)
    ensures |row| == 3
    ensures row[0] == firstCell && row[1] == secondCell
  {
    [firstCell, secondCell, DisplayBandwidth(uploaded) + "/" + DisplayBandwidth(downloaded)]
  }

  /** Splits at the first `/`; `None` when there is none. */
  function SplitAtSlash(s: string): (r: Option<(string, string)>)
    ensures r.Some? <==> '/' in s
    ensures r.Some? ==> r.value.0 + "/" + r.value.1 == s && '/' !in r.value.0
  {
    if |s| == 0 then None
    else if s[0] == '/' then Some(("", s[1..]))
    else match SplitAtSlash(s[1..])
      case None => None
      case Some(parts) => Some(([s[0]] + parts.0, parts.1))
  }

  /** Reads a bandwidth cell back as its upload and download readings. */
  function ParseBandwidthCell(cell: string): Option<(Reading, Reading)> {
    match SplitAtSlash(cell)
    case None => None
    case Some(parts) =>
      match (ParseBandwidth(parts.0), ParseBandwidth(parts.1))
      case (Some(up), Some(down)) => Some((up, down))
      case _ => None
  }

  lemma {:induction false} SplitAtSlashOfJoin(a: string, b: string)
    requires '/' !in a
    ensures SplitAtSlash(a + "/" + b) == Some((a, b))
    decreases |a|
  {
    var s := a + "/" + b;
    if |a| > 0 {
      assert s[1..] == a[1..] + "/" + b;
      SplitAtSlashOfJoin(a[1..], b);
      assert [a[0]] + a[1..] == a;
    } else {
      assert s[1..] == b;
    }
  }

  /** The bandwidth cell of a row reads back as the upload reading followed by
      the download reading, each the one `Expected` assigns to its total. */
  lemma BandwidthCellParses(firstCell: string, secondCell: string, uploaded: nat, downloaded: nat)
    ensures ParseBandwidthCell(FormatRowData(firstCell, secondCell, uploaded, downloaded)[2])
         == Some((Expected(uploaded), Expected(downloaded)))
  {
    SplitAtSlashOfJoin(DisplayBandwidth(uploaded), DisplayBandwidth(downloaded));
    DisplayBandwidthParses(uploaded);
    DisplayBandwidthParses(downloaded);
  }

  /** The bandwidth cell is the only string that reads back as the two
      expected readings: parsing it loses nothing, so the contracts stated
      through `ParseBandwidthCell` fix the cell's text exactly. */
  lemma OnlyFormattedCellReads(cell: string, firstCell: string, secondCell: string, uploaded: nat, downloaded: nat)
    ensures ParseBandwidthCell(cell) == Some((Expected(uploaded), Expected(downloaded)))
            ==> cell == FormatRowData(firstCell, secondCell, uploaded, downloaded)[2]
  {
    if ParseBandwidthCell(cell) == Some((Expected(uploaded), Expected(downloaded))) {
      var parts := SplitAtSlash(cell).value;
      OnlyDisplayReadsAsExpected(parts.0, uploaded);
      OnlyDisplayReadsAsExpected(parts.1, downloaded);
    }
  }

  /** `join(", ")` on a list of names: empty for no names, otherwise it
      starts with the first name and ends with the last. */
  function JoinNames(names: seq<string>): (s: string)
    ensures |names| == 0 ==> s == ""
    ensures |names| > 0 ==> |names[0]| <= |s| && s[..|names[0]|] == names[0]
    ensures |names| > 0 ==>
      var last := names[|names| - 1];
      |last| <= |s| && s[|s| - |last|..] == last
    decreases |names|
  {
    if |names| == 0 then ""
    else if |names| == 1 then names[0]
    else names[0] + ", " + JoinNames(names[1..])
  }

  /** Splits at every `,`, dropping the one character that follows it. */
  function SplitNames(s: string): (names: seq<string>)
    ensures |names| > 0
    decreases |s|
  {
    if ',' !in s then [s]
    else
      var i := FirstComma(s);
      if i + 2 <= |s| then [s[..i]] + SplitNames(s[i + 2..]) else [s[..i]]
  }

  function FirstComma(s: string): (i: nat)
    requires ',' in s
    ensures i < |s| && s[i] == ',' && ',' !in s[..i]
  {
    if s[0] == ',' then 0
    else
      assert ',' in s[1..] by {
        var k :| 0 <= k < |s| && s[k] == ',';
        assert s[1..][k - 1] == ',';
      }
      var j := FirstComma(s[1..]);
      assert s[..j + 1] == [s[0]] + s[1..][..j];
      j + 1
  }

  lemma FirstCommaOfJoin(a: string, b: string)
    requires ',' !in a
    ensures FirstComma(a + ", " + b) == |a|
  {
    var s := a + ", " + b;
    assert s[|a|] == ',';
    assert s[..|a|] == a;
  }

  /** Splitting peels off one comma-free name and its `", "` separator. */
  lemma SplitNamesOfJoin(first: string, tail: string)
    requires ',' !in first
    ensures SplitNames(first + ", " + tail) == [first] + SplitNames(tail)
  {
    var s := first + ", " + tail;
    assert s[|first|] == ',';
    FirstCommaOfJoin(first, tail);
    assert s[..|first|] == first;
    assert s[|first| + 2..] == tail;
  }

  /** Dropping the first name keeps every remaining name comma-free. */
  lemma TailCommaFree(names: seq<string>)
    requires |names| > 0
    requires forall i :: 0 <= i < |names| ==> ',' !in names[i]
    ensures forall i :: 0 <= i < |names| - 1 ==> ',' !in names[1..][i]
  {
  }

  /** Splitting a joined list gives the list back, provided no name contains
      a comma and the list is not empty (the empty list and the list of one
      empty name both join to ""). */
  lemma {:induction false} SplitJoinNames(names: seq<string>)
    requires |names| > 0
    requires forall i :: 0 <= i < |names| ==> ',' !in names[i]
    ensures SplitNames(JoinNames(names)) == names
    decreases |names|
  {
    if |names| > 1 {
      var rest := names[1..];
      var tail := JoinNames(rest);
      TailCommaFree(names);
      SplitJoinNames(rest);
      assert SplitNames(JoinNames(names)) == [names[0]] + SplitNames(tail) by {
        assert JoinNames(names) == names[0] + ", " + tail;
        assert ',' !in names[0];
        SplitNamesOfJoin(names[0], tail);
      }
      assert names == [names[0]] + rest;
    }
  }
}
