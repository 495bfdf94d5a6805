/** The NS file of server/templates/grid/vector.py: `get_ns` reads one
    edge per non-blank line into parallel lists that start with a
    placeholder at index 0, and `write_ns` writes entries 1.. back as
    space-joined lines. */
module NsFile {
  import opened Wrappers
  import opened Text
  import opened GridText

  // ---------------------------------------------------------------------
  // `get_ns`

  /** The lists of an NS file. `get_ns` reads the type with `float`, so
      past the placeholder `s_type_list` holds floats. */
  datatype NsData = NsData(edgeIdList: seq<int>, iseList: seq<seq<int>>, disList: seq<real>,
                           xSideList: seq<real>, ySideList: seq<real>, zSideList: seq<real>,
                           sTypeList: seq<real>)

  /** One data line: the edge id, its five `ise` entries (direction and the
      cells on either side), its length, its midpoint and its type. */
  datatype NsRow = NsRow(edgeId: int, ise: seq<int>, dis: real, x: real, y: real, z: real, sType: real)

  /** The lists before the first line: each holds its placeholder only. */
  const NS_START: NsData := NsData([0], [[0, 0, 0, 0, 0]], [0.0], [0.0], [0.0], [0.0], [0.0])

  /** Every list appended with its field of `r`. */
  function AddNs(d: NsData, r: NsRow): NsData
  {
    NsData(d.edgeIdList + [r.edgeId], d.iseList + [r.ise], d.disList + [r.dis], d.xSideList + [r.x],
           d.ySideList + [r.y], d.zSideList + [r.z], d.sTypeList + [r.sType])
  }

  /** The lists after the data lines `rows`: at index 0 the placeholder,
      at index i + 1 the field of the i-th row. */
  function NsDataOf(rows: seq<NsRow>): NsData
  {
    NsData([0] + Column(rows, (x: NsRow) => x.edgeId), [[0, 0, 0, 0, 0]] + Column(rows, (x: NsRow) => x.ise),
           [0.0] + Column(rows, (x: NsRow) => x.dis), [0.0] + Column(rows, (x: NsRow) => x.x),
           [0.0] + Column(rows, (x: NsRow) => x.y), [0.0] + Column(rows, (x: NsRow) => x.z),
           [0.0] + Column(rows, (x: NsRow) => x.sType))
  }

  /** Appending a row to the lists is reading one more data line. */
  lemma NsDataSnoc(rows: seq<NsRow>, r: NsRow)
    ensures NsDataOf(rows + [r]) == AddNs(NsDataOf(rows), r)
  {
    ColumnSnoc(rows, r, (x: NsRow) => x.edgeId);
    ColumnSnoc(rows, r, (x: NsRow) => x.ise);
    ColumnSnoc(rows, r, (x: NsRow) => x.dis);
    ColumnSnoc(rows, r, (x: NsRow) => x.x);
    ColumnSnoc(rows, r, (x: NsRow) => x.y);
    ColumnSnoc(rows, r, (x: NsRow) => x.z);
    ColumnSnoc(rows, r, (x: NsRow) => x.sType);
  }

  /** `int(rowdata[1])` .. `int(rowdata[5])` */
  function IseOf(ts: seq<string>): Option<seq<int>>
    requires |ts| >= 6
  {
    var a, b, c, d, e := ParseInt(ts[1]), ParseInt(ts[2]), ParseInt(ts[3]), ParseInt(ts[4]), ParseInt(ts[5]);
    if a.None? || b.None? || c.None? || d.None? || e.None? then None
    else Some([a.value, b.value, c.value, d.value, e.value])
  }

  /** A non-blank line numbered `line`: `int(float(rowdata[0]))` and the five
      integers after it, or the edge-data error; then five floats, or the
      side-data error. */
  function NsRowOf(ts: seq<string>, ft: FloatText, line: nat): Result<NsRow, LoadError>
  {
    if |ts| < 6 then Err(EdgeDataError(line))
    else
      var e, ise := ft.parse(ts[0]), IseOf(ts);
      if e.None? || ise.None? then Err(EdgeDataError(line))
      else if |ts| < 11 then Err(SideDataError(line))
      else
        var dis, x, y, z, st := ft.parse(ts[6]), ft.parse(ts[7]), ft.parse(ts[8]), ft.parse(ts[9]), ft.parse(ts[10]);
        if dis.None? || x.None? || y.None? || z.None? || st.None? then Err(SideDataError(line))
        else Ok(NsRow(Trunc(e.value), ise.value, dis.value, x.value, y.value, z.value, st.value))
  }

  /** The rows of the lines in order; blank lines are skipped, and the
      first line `get_ns` raises on ends the load with its error. */
  function NsRows(lines: seq<string>, ft: FloatText): Result<seq<NsRow>, LoadError>
  {
    if lines == [] then Ok([])
    else
      var init := NsRows(lines[..|lines| - 1], ft);
      var ts := Tokens(lines[|lines| - 1]);
      if init.Err? || ts == [] then init
      else
        var row := NsRowOf(ts, ft, |lines|);
        if row.Err? then Err(row.error) else Ok(init.value + [row.value])
  }

  function NsLoad(lines: seq<string>, ft: FloatText): Result<NsData, LoadError>
  {
    var rows := NsRows(lines, ft);
    if rows.Err? then Err(rows.error) else Ok(NsDataOf(rows.value))
  }

  /** `get_ns(path)`, the file given as its lines. */
  method GetNs(lines: seq<string>, ft: FloatText) returns (r: Result<NsData, LoadError>)
    ensures r == NsLoad(lines, ft)
  {
    var d := NS_START;
    ghost var rows: seq<NsRow> := [];
    for lineIdx := 0 to |lines|
      invariant NsRows(lines[..lineIdx], ft) == Ok(rows)
      invariant d == NsDataOf(rows)
    {
      assert lines[..lineIdx + 1][..lineIdx] == lines[..lineIdx];
      var rowData := Tokens(lines[lineIdx]);
      if rowData == [] {
        continue;
      }
      var row := NsRowOf(rowData, ft, lineIdx + 1);
      if row.Err? {
        NsRowsErrStays(lines, lineIdx + 1, ft);
        return Err(row.error);
      }
      NsDataSnoc(rows, row.value);
      d := AddNs(d, row.value);
      rows := rows + [row.value];
    }
    assert lines[..|lines|] == lines;
    r := Ok(d);
  }

  /** Once a prefix of the lines fails, so does the whole file, the same way. */
  lemma {:induction false} NsRowsErrStays(lines: seq<string>, k: nat, ft: FloatText)
    requires k <= |lines| && NsRows(lines[..k], ft).Err?
    ensures NsRows(lines, ft) == NsRows(lines[..k], ft)
  {
    if k < |lines| {
      var init := lines[..|lines| - 1];
      assert init[..k] == lines[..k];
      NsRowsErrStays(init, k, ft);
    } else {
      assert lines[..k] == lines;
    }
  }

  /** A line reads as a row exactly when it has eleven tokens or more, the
      first a float, the next five integers and the five after them floats;
      the row holds those values, the id truncated toward zero. */
  lemma NsRowFields(ts: seq<string>, ft: FloatText, line: nat)
    ensures NsRowOf(ts, ft, line).Ok? <==>
      && |ts| >= 11 && ft.parse(ts[0]).Some?
      && (forall k :: 1 <= k <= 5 ==> ParseInt(ts[k]).Some?)
      && (forall k :: 6 <= k <= 10 ==> ft.parse(ts[k]).Some?)
    ensures NsRowOf(ts, ft, line).Ok? ==>
      var r := NsRowOf(ts, ft, line).value;
      && r.edgeId == Trunc(ft.parse(ts[0]).value) && |r.ise| == 5
      && (forall k :: 0 <= k < 5 ==> ParseInt(ts[k + 1]) == Some(r.ise[k]))
      && ft.parse(ts[6]) == Some(r.dis) && ft.parse(ts[7]) == Some(r.x) && ft.parse(ts[8]) == Some(r.y)
      && ft.parse(ts[9]) == Some(r.z) && ft.parse(ts[10]) == Some(r.sType)
  {
    if |ts| >= 11 && ft.parse(ts[0]).Some? && (forall k :: 1 <= k <= 5 ==> ParseInt(ts[k]).Some?) {
      assert ParseInt(ts[1]).Some? && ParseInt(ts[2]).Some? && ParseInt(ts[3]).Some?;
      assert ParseInt(ts[4]).Some? && ParseInt(ts[5]).Some?;
    }
  }

  /** A line is an edge-data error when it lacks one of its first six
      values, and a side-data error when its edge data are there but one
      of the five values after them is missing or not a float. */
  lemma NsRowErrors(ts: seq<string>, ft: FloatText, line: nat)
    ensures NsRowOf(ts, ft, line).Err? ==>
      NsRowOf(ts, ft, line).error == EdgeDataError(line) || NsRowOf(ts, ft, line).error == SideDataError(line)
    ensures NsRowOf(ts, ft, line) == Err(EdgeDataError(line)) <==>
      |ts| < 6 || ft.parse(ts[0]).None? || IseOf(ts).None?
  {
  }

  lemma NsSkipsBlankLines(lines: seq<string>, line: string, ft: FloatText)
    requires IsBlank(line)
    ensures NsLoad(lines + [line], ft) == NsLoad(lines, ft)
  {
    BlankIffNoTokens(line);
    assert (lines + [line])[..|lines|] == lines;
  }

  /** Unlike an NE line, a non-blank NS line is never skipped: the first
      line that does not read as a row fails the load with its number. */
  lemma NsRejectsLine(lines: seq<string>, line: string, ft: FloatText)
    requires NsRows(lines, ft).Ok? && Tokens(line) != [] && NsRowOf(Tokens(line), ft, |lines| + 1).Err?
    ensures NsLoad(lines + [line], ft) == Err(NsRowOf(Tokens(line), ft, |lines| + 1).error)
  {
    var all := lines + [line];
    assert all[..|all| - 1] == lines && all[|all| - 1] == line;
  }

  /** The lists `get_ns` returns all have the same length, and every `ise`
      entry has five elements. */
  predicate NsAligned(d: NsData)
  {
    && |d.iseList| == |d.edgeIdList| && |d.disList| == |d.edgeIdList| && |d.xSideList| == |d.edgeIdList|
    && |d.ySideList| == |d.edgeIdList| && |d.zSideList| == |d.edgeIdList| && |d.sTypeList| == |d.edgeIdList|
    && forall i :: 0 <= i < |d.iseList| ==> |d.iseList[i]| == 5
  }

  lemma {:induction false} NsRowsIse(lines: seq<string>, ft: FloatText)
    requires NsRows(lines, ft).Ok?
    ensures forall k :: 0 <= k < |NsRows(lines, ft).value| ==> |NsRows(lines, ft).value[k].ise| == 5
  {
    if lines != [] {
      NsRowsIse(lines[..|lines| - 1], ft);
      var ts := Tokens(lines[|lines| - 1]);
      if ts != [] {
        NsRowFields(ts, ft, |lines|);
      }
    }
  }

  lemma NsLoadAligned(lines: seq<string>, ft: FloatText)
    requires NsLoad(lines, ft).Ok?
    ensures NsAligned(NsLoad(lines, ft).value) && |NsLoad(lines, ft).value.edgeIdList| >= 1
  {
    NsRowsIse(lines, ft);
    var rows := NsRows(lines, ft).value;
    var d := NsDataOf(rows);
    forall i | 0 <= i < |d.iseList| ensures |d.iseList[i]| == 5 {
      if i > 0 {
        assert d.iseList[i] == rows[i - 1].ise;
      }
    }
  }

  // ---------------------------------------------------------------------
  // `write_ns`

  /** Row i can be written: every list is long enough at index i. */
  predicate NsRowWritable(d: NsData, i: nat)
  {
    && i < |d.edgeIdList| && i < |d.iseList| && i < |d.disList| && i < |d.xSideList|
    && i < |d.ySideList| && i < |d.zSideList| && i < |d.sTypeList|
  }

  /** `str` of every entry. */
  function IntTexts(s: seq<int>): (r: seq<string>)
    ensures |r| == |s| && forall j :: 0 <= j < |s| ==> r[j] == IntText(s[j])
  {
    seq(|s|, j requires 0 <= j < |s| => IntText(s[j]))
  }

  /** `row_parts` of row i: the id, every `ise` entry, the length and
      midpoint at 14 significant digits, and the type. */
  function NsParts(d: NsData, i: nat, ft: FloatText): seq<string>
    requires NsRowWritable(d, i)
  {
    [IntText(d.edgeIdList[i])] + IntTexts(d.iseList[i])
    + [ft.fixed14(d.disList[i]), ft.fixed14(d.xSideList[i]), ft.fixed14(d.ySideList[i]),
       ft.fixed14(d.zSideList[i]), ft.repr(d.sTypeList[i])]
  }

  predicate NsWritable(d: NsData)
  {
    forall i :: 1 <= i < |d.edgeIdList| ==> NsRowWritable(d, i)
  }

  /** Row i as one line, or None for the IndexError. */
  function NsLine(d: NsData, i: nat, ft: FloatText): Option<string>
  {
    if NsRowWritable(d, i) then Some(JoinSpace(NsParts(d, i, ft))) else None
  }

  /** The row formatter of `write_ns`. */
  function NsLineOf(d: NsData, ft: FloatText): nat -> Option<string>
  {
    (i: nat) => NsLine(d, i, ft)
  }

  /** The lines `write_ns` writes: rows 1.. of the lists, or the IndexError. */
  function NsText(d: NsData, ft: FloatText): Result<seq<string>, WriteError>
  {
    Lines(NsLineOf(d, ft), Max(|d.edgeIdList| - 1, 0))
  }

  /** `write_ns` fails exactly when some row 1.. cannot be written, and
      otherwise writes one line per row. */
  lemma NsTextOk(d: NsData, ft: FloatText)
    ensures NsText(d, ft).Ok? <==> NsWritable(d)
    ensures NsText(d, ft).Ok? ==> |NsText(d, ft).value| == Max(|d.edgeIdList| - 1, 0)
    ensures NsText(d, ft).Err? ==> NsText(d, ft) == Err(IndexError)
  {
    var lineOf := NsLineOf(d, ft);
    var m := Max(|d.edgeIdList| - 1, 0);
    LinesOk(lineOf, m);
    LinesLength(lineOf, m);
    LinesErr(lineOf, m);
    forall k: nat | 1 <= k <= m ensures lineOf(k).Some? <==> NsRowWritable(d, k) {
      assert lineOf(k) == NsLine(d, k, ft);
    }
  }

  /** The loop over `range(len(ise_list[i]))` appending `str(ise_list[i][j])`. */
  method AppendInts(parts: seq<string>, ise: seq<int>) returns (r: seq<string>)
    ensures r == parts + IntTexts(ise)
  {
    r := parts;
    for j := 0 to |ise|
      invariant r == parts + IntTexts(ise[..j])
    {
      assert IntTexts(ise[..j + 1]) == IntTexts(ise[..j]) + [IntText(ise[j])];
      r := r + [IntText(ise[j])];
    }
    assert ise[..|ise|] == ise;
  }

  /** The body of `write_ns`'s loop for row i. */
  method NsRowText(d: NsData, i: nat, ft: FloatText) returns (r: Option<string>)
    requires i < |d.edgeIdList|
    ensures r == NsLine(d, i, ft)
  {
    if i >= |d.iseList| {
      return None;
    }
    var rowParts := AppendInts([IntText(d.edgeIdList[i])], d.iseList[i]);
    if i >= |d.disList| || i >= |d.xSideList| || i >= |d.ySideList| || i >= |d.zSideList| || i >= |d.sTypeList| {
      return None;
    }
    var parts := rowParts + [ft.fixed14(d.disList[i]), ft.fixed14(d.xSideList[i]), ft.fixed14(d.ySideList[i]),
                             ft.fixed14(d.zSideList[i]), ft.repr(d.sTypeList[i])];
    assert parts == NsParts(d, i, ft);
    r := Some(JoinSpace(parts));
  }

  /** One pass of `write_ns`'s loop: row i appended, or the IndexError. */
  method NsWriteRow(d: NsData, ft: FloatText, i: nat, lines: seq<string>) returns (r: Result<seq<string>, WriteError>)
    requires 1 <= i < |d.edgeIdList| && Lines(NsLineOf(d, ft), i - 1) == Ok(lines)
    ensures r == Lines(NsLineOf(d, ft), i)
  {
    var line := NsRowText(d, i, ft);
    assert line == NsLineOf(d, ft)(i);
    if line.None? {
      return Err(IndexError);
    }
    r := Ok(lines + [line.value]);
  }

  /** A row that raises ends `write_ns` with the IndexError. */
  lemma NsTextStops(d: NsData, ft: FloatText, i: nat)
    requires 1 <= i < |d.edgeIdList| && Lines(NsLineOf(d, ft), i).Err?
    ensures NsText(d, ft) == Err(IndexError)
  {
    LinesErrStays(NsLineOf(d, ft), i, |d.edgeIdList| - 1);
    LinesErr(NsLineOf(d, ft), i);
  }

  /** `write_ns(path, ns_data)`, giving the lines of the file. */
  method WriteNs(d: NsData, ft: FloatText) returns (r: Result<seq<string>, WriteError>)
    ensures r == NsText(d, ft)
  {
    var lines := [];
    var rows := Max(|d.edgeIdList| - 1, 0);
    for k := 0 to rows
      invariant Lines(NsLineOf(d, ft), k) == Ok(lines)
    {
      var step := NsWriteRow(d, ft, k + 1, lines);
      if step.Err? {
        NsTextStops(d, ft, k + 1);
        return Err(IndexError);
      }
      lines := step.value;
    }
    r := Ok(lines);
  }

  // ---------------------------------------------------------------------
  // `get_ns` after `write_ns`

  /** Row i as `get_ns` can read it back: every list has it and its `ise`
      entry has five elements. */
  predicate NsRowCanonical(d: NsData, i: nat)
  {
    NsRowWritable(d, i) && |d.iseList[i]| == 5
  }

  predicate NsCanonical(d: NsData)
  {
    forall i :: 1 <= i < |d.edgeIdList| ==> NsRowCanonical(d, i)
  }

  /** The entries at index i of every list. */
  function NsRowAt(d: NsData, i: nat): NsRow
    requires NsRowCanonical(d, i)
  {
    NsRow(d.edgeIdList[i], d.iseList[i], d.disList[i], d.xSideList[i], d.ySideList[i], d.zSideList[i],
          d.sTypeList[i])
  }

  /** The eleven parts `write_ns` writes for a row with five `ise` entries. */
  function NsRowParts(r: NsRow, ft: FloatText): seq<string>
    requires |r.ise| == 5
  {
    [IntText(r.edgeId), IntText(r.ise[0]), IntText(r.ise[1]), IntText(r.ise[2]), IntText(r.ise[3]),
     IntText(r.ise[4]), ft.fixed14(r.dis), ft.fixed14(r.x), ft.fixed14(r.y), ft.fixed14(r.z), ft.repr(r.sType)]
  }

  lemma IntTextsFive(s: seq<int>)
    requires |s| == 5
    ensures IntTexts(s) == [IntText(s[0]), IntText(s[1]), IntText(s[2]), IntText(s[3]), IntText(s[4])]
  {
  }

  /** Row i of canonical data is written as the line of its entries. */
  lemma NsLineOfRow(d: NsData, ft: FloatText, i: nat)
    requires NsRowCanonical(d, i)
    ensures NsLineOf(d, ft)(i) == Some(JoinSpace(NsRowParts(NsRowAt(d, i), ft)))
  {
    IntTextsFive(d.iseList[i]);
    assert NsParts(d, i, ft) == NsRowParts(NsRowAt(d, i), ft);
    assert NsLineOf(d, ft)(i) == NsLine(d, i, ft);
  }

  /** A row after writing and reading back: the `ise` entries unchanged,
      the id through `int(float(str(id)))`, the floats through their text. */
  function NsReadBack(r: NsRow, ft: FloatText): NsRow
    requires FloatsRead(ft)
  {
    NsRow(Trunc(ft.parse(IntText(r.edgeId)).value), r.ise, ft.parse(ft.fixed14(r.dis)).value,
          ft.parse(ft.fixed14(r.x)).value, ft.parse(ft.fixed14(r.y)).value, ft.parse(ft.fixed14(r.z)).value,
          ft.parse(ft.repr(r.sType)).value)
  }

  /** The five written `ise` entries read back as themselves. */
  lemma IseRead(r: NsRow, ft: FloatText)
    requires |r.ise| == 5
    ensures IseOf(NsRowParts(r, ft)) == Some(r.ise)
  {
    ParseIntText(r.ise[0]);
    ParseIntText(r.ise[1]);
    ParseIntText(r.ise[2]);
    ParseIntText(r.ise[3]);
    ParseIntText(r.ise[4]);
    assert [r.ise[0], r.ise[1], r.ise[2], r.ise[3], r.ise[4]] == r.ise;
  }

  /** `get_ns`'s reading of the parts of a written row is `NsReadBack`. */
  lemma NsRowRead(r: NsRow, ft: FloatText, line: nat)
    requires |r.ise| == 5 && FloatsRead(ft)
    ensures NsRowOf(NsRowParts(r, ft), ft, line) == Ok(NsReadBack(r, ft))
  {
    IseRead(r, ft);
    var ts := NsRowParts(r, ft);
    assert ft.parse(ts[0]).Some? && ft.parse(ts[6]).Some? && ft.parse(ts[7]).Some?;
    assert ft.parse(ts[8]).Some? && ft.parse(ts[9]).Some? && ft.parse(ts[10]).Some?;
  }

  /** `get_ns` reads a line `write_ns` wrote for a row back as `NsReadBack`. */
  lemma NsRowRoundTrip(r: NsRow, ft: FloatText, line: nat)
    requires |r.ise| == 5 && FloatsRead(ft)
    ensures var ts := Tokens(JoinSpace(NsRowParts(r, ft)));
      ts != [] && NsRowOf(ts, ft, line) == Ok(NsReadBack(r, ft))
  {
    var ts := NsRowParts(r, ft);
    IntTextToken(r.edgeId);
    IntTextToken(r.ise[0]);
    IntTextToken(r.ise[1]);
    IntTextToken(r.ise[2]);
    IntTextToken(r.ise[3]);
    IntTextToken(r.ise[4]);
    assert IsToken(ts[6]) && IsToken(ts[7]) && IsToken(ts[8]) && IsToken(ts[9]) && IsToken(ts[10]);
    assert AllTokens(ts);
    TokensOfJoin(ts);
    NsRowRead(r, ft, line);
  }

  predicate NsAllCanonical(rs: seq<NsRow>)
  {
    forall k :: 0 <= k < |rs| ==> |rs[k].ise| == 5
  }

  /** The lines `write_ns` writes for the rows `rs`. */
  function NsWrittenLines(rs: seq<NsRow>, ft: FloatText): seq<string>
    requires NsAllCanonical(rs)
  {
    if rs == [] then [] else NsWrittenLines(rs[..|rs| - 1], ft) + [JoinSpace(NsRowParts(rs[|rs| - 1], ft))]
  }

  /** The rows `rs` as `get_ns` reads them back. */
  function NsReadBacks(rs: seq<NsRow>, ft: FloatText): (r: seq<NsRow>)
    requires FloatsRead(ft)
    ensures |r| == |rs|
  {
    if rs == [] then [] else NsReadBacks(rs[..|rs| - 1], ft) + [NsReadBack(rs[|rs| - 1], ft)]
  }

  /** Element k of `NsReadBacks` is row k read back. */
  lemma {:induction false} NsReadBacksAt(rs: seq<NsRow>, ft: FloatText)
    requires FloatsRead(ft)
    ensures forall k :: 0 <= k < |rs| ==> NsReadBacks(rs, ft)[k] == NsReadBack(rs[k], ft)
  {
    if rs != [] {
      var init := rs[..|rs| - 1];
      NsReadBacksAt(init, ft);
      forall k | 0 <= k < |rs| ensures NsReadBacks(rs, ft)[k] == NsReadBack(rs[k], ft) {
        if k < |init| {
          assert NsReadBacks(rs, ft)[k] == NsReadBacks(init, ft)[k];
          assert rs[k] == init[k];
        }
      }
    }
  }

  /** One more non-blank line read into a row. */
  lemma NsRowsSnoc(lines: seq<string>, ft: FloatText, rows: seq<NsRow>, r: NsRow)
    requires |lines| > 0 && NsRows(lines[..|lines| - 1], ft) == Ok(rows)
    requires var ts := Tokens(lines[|lines| - 1]); ts != [] && NsRowOf(ts, ft, |lines|) == Ok(r)
    ensures NsRows(lines, ft) == Ok(rows + [r])
  {
  }

  /** Every written line is a data line, read back row by row. */
  lemma {:induction false} ReadNsWrittenLines(rs: seq<NsRow>, ft: FloatText)
    requires NsAllCanonical(rs) && FloatsRead(ft)
    ensures NsRows(NsWrittenLines(rs, ft), ft) == Ok(NsReadBacks(rs, ft))
  {
    if rs != [] {
      var init, last := rs[..|rs| - 1], rs[|rs| - 1];
      var lines := NsWrittenLines(rs, ft);
      ReadNsWrittenLines(init, ft);
      assert lines[..|lines| - 1] == NsWrittenLines(init, ft);
      NsRowRoundTrip(last, ft, |lines|);
      NsRowsSnoc(lines, ft, NsReadBacks(init, ft), NsReadBack(last, ft));
    }
  }

  /** Rows 1..m of the lists. */
  function NsRowsUpTo(d: NsData, m: nat): (rs: seq<NsRow>)
    requires forall i :: 1 <= i <= m ==> NsRowCanonical(d, i)
    ensures |rs| == m && NsAllCanonical(rs)
  {
    if m == 0 then [] else NsRowsUpTo(d, m - 1) + [NsRowAt(d, m)]
  }

  /** Element k of `NsRowsUpTo` is the entries at index k + 1. */
  lemma {:induction false} NsRowsUpToAt(d: NsData, m: nat)
    requires forall i :: 1 <= i <= m ==> NsRowCanonical(d, i)
    ensures forall k :: 0 <= k < m ==> NsRowsUpTo(d, m)[k] == NsRowAt(d, k + 1)
  {
    if m > 0 {
      NsRowsUpToAt(d, m - 1);
    }
  }

  lemma NsWrittenLinesSnoc(rs: seq<NsRow>, r: NsRow, ft: FloatText)
    requires NsAllCanonical(rs) && |r.ise| == 5
    ensures NsAllCanonical(rs + [r])
    ensures NsWrittenLines(rs + [r], ft) == NsWrittenLines(rs, ft) + [JoinSpace(NsRowParts(r, ft))]
  {
    assert (rs + [r])[..|rs|] == rs;
  }

  /** The lines of rows 1..m are the written lines of those rows. */
  lemma {:induction false} NsLinesRows(d: NsData, ft: FloatText, m: nat)
    requires forall i :: 1 <= i <= m ==> NsRowCanonical(d, i)
    ensures Lines(NsLineOf(d, ft), m) == Ok(NsWrittenLines(NsRowsUpTo(d, m), ft))
  {
    if m > 0 {
      var r := NsRowAt(d, m);
      var prev := NsWrittenLines(NsRowsUpTo(d, m - 1), ft);
      NsLinesRows(d, ft, m - 1);
      NsLineOfRow(d, ft, m);
      LinesSnoc(NsLineOf(d, ft), m, prev, JoinSpace(NsRowParts(r, ft)));
      assert NsRowsUpTo(d, m) == NsRowsUpTo(d, m - 1) + [r];
      NsWrittenLinesSnoc(NsRowsUpTo(d, m - 1), r, ft);
    }
  }

  /** Rows 1.. of the lists. */
  function NsRowsAt(d: NsData): (rs: seq<NsRow>)
    requires NsCanonical(d) && |d.edgeIdList| > 0
    ensures |rs| == |d.edgeIdList| - 1 && NsAllCanonical(rs)
  {
    NsRowsUpTo(d, |d.edgeIdList| - 1)
  }

  /** `get_ns(write_ns(d))`: the lists of canonical data come back with
      the placeholders at index 0 and, at every index i >= 1, the same
      `ise` entries, the id through `str` and `int(float(..))`, and the
      floats as `float` reads their text. */
  lemma NsRoundTrip(d: NsData, ft: FloatText)
    requires NsCanonical(d) && FloatsRead(ft) && |d.edgeIdList| > 0
    ensures NsText(d, ft).Ok?
    ensures NsLoad(NsText(d, ft).value, ft) == Ok(NsDataOf(NsReadBacks(NsRowsAt(d), ft)))
  {
    NsLinesRows(d, ft, |d.edgeIdList| - 1);
    ReadNsWrittenLines(NsRowsAt(d), ft);
  }

  /** The `ise` entries of canonical data survive the round trip, and so do
      the lengths of all lists. */
  lemma NsRoundTripIse(d: NsData, ft: FloatText)
    requires NsCanonical(d) && FloatsRead(ft) && |d.edgeIdList| > 0
    ensures NsText(d, ft).Ok?
    ensures var back := NsLoad(NsText(d, ft).value, ft);
      && back.Ok? && |back.value.edgeIdList| == |d.edgeIdList|
      && forall i :: 1 <= i < |d.edgeIdList| ==> back.value.iseList[i] == d.iseList[i]
  {
    NsRoundTrip(d, ft);
    var rs := NsRowsAt(d);
    var back := NsDataOf(NsReadBacks(rs, ft));
    NsReadBacksAt(rs, ft);
    NsRowsUpToAt(d, |d.edgeIdList| - 1);
    forall i | 1 <= i < |d.edgeIdList| ensures back.iseList[i] == d.iseList[i] {
      assert back.iseList[i] == NsReadBacks(rs, ft)[i - 1].ise;
    }
  }
}
