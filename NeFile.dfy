/** The NE file of server/templates/grid/vector.py: `get_ne` reads its
    whitespace-separated lines into parallel lists that start with a
    placeholder at index 0, and `write_ne` writes entries 1.. back as
    space-joined lines. */
module NeFile {
  import opened Wrappers
  import opened Text
  import opened GridText

  // ---------------------------------------------------------------------
  // `get_ne`

  datatype NeData = NeData(gridIdList: seq<int>, nsl1List: seq<int>, nsl2List: seq<int>, nsl3List: seq<int>,
                           nsl4List: seq<int>, isl1List: seq<seq<int>>, isl2List: seq<seq<int>>,
                           isl3List: seq<seq<int>>, isl4List: seq<seq<int>>, xeList: seq<real>,
                           yeList: seq<real>, zeList: seq<real>, underSufList: seq<int>)

  /** One data line: its id, the four counts and side lists, the centre and the type. */
  datatype NeRow = NeRow(gridId: int, nsl1: int, nsl2: int, nsl3: int, nsl4: int,
                         isl1: seq<int>, isl2: seq<int>, isl3: seq<int>, isl4: seq<int>,
                         xe: real, ye: real, ze: real, underSuf: int)

  /** `[0] * 10` */
  const EMPTY_SLOTS: seq<int> := [0, 0, 0, 0, 0, 0, 0, 0, 0, 0]

  /** The lists before the first line: each holds its placeholder only. */
  const NE_START: NeData := NeData([0], [0], [0], [0], [0], [EMPTY_SLOTS], [EMPTY_SLOTS], [EMPTY_SLOTS], [EMPTY_SLOTS],
                                   [0.0], [0.0], [0.0], [0])

  /** Every list appended with its field of `r`. */
  function AddNe(d: NeData, r: NeRow): NeData
  {
    NeData(d.gridIdList + [r.gridId], d.nsl1List + [r.nsl1], d.nsl2List + [r.nsl2], d.nsl3List + [r.nsl3],
           d.nsl4List + [r.nsl4], d.isl1List + [r.isl1], d.isl2List + [r.isl2], d.isl3List + [r.isl3],
           d.isl4List + [r.isl4], d.xeList + [r.xe], d.yeList + [r.ye], d.zeList + [r.ze],
           d.underSufList + [r.underSuf])
  }

  /** The lists after the data lines `rows`: at index 0 the placeholder,
      at index i + 1 the field of the i-th row. */
  function NeDataOf(rows: seq<NeRow>): NeData
  {
    NeData([0] + Column(rows, (x: NeRow) => x.gridId), [0] + Column(rows, (x: NeRow) => x.nsl1), [0] + Column(rows, (x: NeRow) => x.nsl2),
           [0] + Column(rows, (x: NeRow) => x.nsl3), [0] + Column(rows, (x: NeRow) => x.nsl4),
           [EMPTY_SLOTS] + Column(rows, (x: NeRow) => x.isl1), [EMPTY_SLOTS] + Column(rows, (x: NeRow) => x.isl2),
           [EMPTY_SLOTS] + Column(rows, (x: NeRow) => x.isl3), [EMPTY_SLOTS] + Column(rows, (x: NeRow) => x.isl4),
           [0.0] + Column(rows, (x: NeRow) => x.xe), [0.0] + Column(rows, (x: NeRow) => x.ye), [0.0] + Column(rows, (x: NeRow) => x.ze),
           [0] + Column(rows, (x: NeRow) => x.underSuf))
  }

  /** Appending a row to the lists is reading one more data line. */
  lemma NeDataSnoc(rows: seq<NeRow>, r: NeRow)
    ensures NeDataOf(rows + [r]) == AddNe(NeDataOf(rows), r)
  {
    ColumnSnoc(rows, r, (x: NeRow) => x.gridId);
    ColumnSnoc(rows, r, (x: NeRow) => x.nsl1);
    ColumnSnoc(rows, r, (x: NeRow) => x.nsl2);
    ColumnSnoc(rows, r, (x: NeRow) => x.nsl3);
    ColumnSnoc(rows, r, (x: NeRow) => x.nsl4);
    ColumnSnoc(rows, r, (x: NeRow) => x.isl1);
    ColumnSnoc(rows, r, (x: NeRow) => x.isl2);
    ColumnSnoc(rows, r, (x: NeRow) => x.isl3);
    ColumnSnoc(rows, r, (x: NeRow) => x.isl4);
    ColumnSnoc(rows, r, (x: NeRow) => x.xe);
    ColumnSnoc(rows, r, (x: NeRow) => x.ye);
    ColumnSnoc(rows, r, (x: NeRow) => x.ze);
    ColumnSnoc(rows, r, (x: NeRow) => x.underSuf);
  }

  /** The tokens `start .. start + n - 1` all read as integers. */
  predicate SlotsOk(ts: seq<string>, n: int, start: int)
  {
    forall k :: start <= k < start + n ==> IntAt(ts, k).Some?
  }

  /** The value of slot j, for 1 <= j. */
  function SlotValue(ts: seq<string>, start: int, j: int): int
  {
    var v := IntAt(ts, start + j - 1);
    if v.Some? then v.value else 0
  }

  /** `build_isl(n, start)`: `max(10, n + 1)` slots, slot 0 and the slots
      past n zero, slot j for 1 <= j <= n the token `start + j - 1`. */
  function Slots(ts: seq<string>, n: int, start: int): seq<int>
  {
    seq(Max(10, n + 1), j => if 1 <= j <= n then SlotValue(ts, start, j) else 0)
  }

  /** `build_isl`, the pre-sized list filled slot by slot. */
  method BuildIsl(ts: seq<string>, n: int, start: int) returns (r: Option<seq<int>>)
    ensures r.Some? <==> SlotsOk(ts, n, start)
    ensures r.Some? ==> r.value == Slots(ts, n, start)
  {
    var size := Max(10, n + 1);
    var isl := seq(size, _ => 0);
    var i := 0;
    while i < n
      invariant 0 <= i <= Max(n, 0) && |isl| == size
      invariant forall k :: start <= k < start + i ==> IntAt(ts, k).Some?
      invariant forall j :: 0 <= j < size ==> isl[j] == if 1 <= j <= i then SlotValue(ts, start, j) else 0
    {
      var v := IntAt(ts, start + i);
      if v.None? {
        return None;
      }
      isl := isl[i + 1 := v.value];
      i := i + 1;
    }
    assert forall j :: 0 <= j < size ==> isl[j] == Slots(ts, n, start)[j];
    r := Some(isl);
  }

  /** The four header tokens that must be integers. */
  predicate HeaderInts(ts: seq<string>)
    requires |ts| >= 5
  {
    ParseInt(ts[0]).Some? && ParseInt(ts[1]).Some? && ParseInt(ts[2]).Some?
    && ParseInt(ts[3]).Some? && ParseInt(ts[4]).Some?
  }

  /** `5 + nsl1 + nsl2 + nsl3 + nsl4 + 4` */
  function MinRequired(ts: seq<string>): int
    requires |ts| >= 5 && HeaderInts(ts)
  {
    5 + ParseInt(ts[1]).value + ParseInt(ts[2]).value + ParseInt(ts[3]).value + ParseInt(ts[4]).value + 4
  }

  /** A line of at least five tokens: None when `get_ne` raises on it. The
      side lists start after the header and after the lists before them;
      the centre and type are the last four tokens of the line. */
  function NeRowOf(ts: seq<string>, ft: FloatText): Option<NeRow>
    requires |ts| >= 5
  {
    if !HeaderInts(ts) || |ts| < MinRequired(ts) then None
    else
      var id, n1, n2, n3, n4 := ParseInt(ts[0]).value, ParseInt(ts[1]).value, ParseInt(ts[2]).value,
                                ParseInt(ts[3]).value, ParseInt(ts[4]).value;
      if !SlotsOk(ts, n1, 5) || !SlotsOk(ts, n2, 5 + n1) || !SlotsOk(ts, n3, 5 + n1 + n2)
         || !SlotsOk(ts, n4, 5 + n1 + n2 + n3) then None
      else
        var xe, ye, ze, us := ft.parse(ts[|ts| - 4]), ft.parse(ts[|ts| - 3]), ft.parse(ts[|ts| - 2]), ft.parse(ts[|ts| - 1]);
        if xe.None? || ye.None? || ze.None? || us.None? then None
        else
          Some(NeRow(id, n1, n2, n3, n4, Slots(ts, n1, 5), Slots(ts, n2, 5 + n1), Slots(ts, n3, 5 + n1 + n2),
                     Slots(ts, n4, 5 + n1 + n2 + n3), xe.value, ye.value, ze.value, Trunc(us.value)))
  }

  /** The rows of the lines in order; a line of fewer than five tokens
      (blank lines among them) is skipped, and the first line `get_ne`
      raises on ends the load with its line number. */
  function NeRows(lines: seq<string>, ft: FloatText): Result<seq<NeRow>, LoadError>
  {
    if lines == [] then Ok([])
    else
      var init := NeRows(lines[..|lines| - 1], ft);
      var ts := Tokens(lines[|lines| - 1]);
      if init.Err? || |ts| < 5 then init
      else
        var row := NeRowOf(ts, ft);
        if row.None? then Err(NeLineError(|lines|)) else Ok(init.value + [row.value])
  }

  function NeLoad(lines: seq<string>, ft: FloatText): Result<NeData, LoadError>
  {
    var rows := NeRows(lines, ft);
    if rows.Err? then Err(rows.error) else Ok(NeDataOf(rows.value))
  }

  /** One line of `get_ne`'s loop. */
  method ParseNeLine(ts: seq<string>, ft: FloatText) returns (r: Option<NeRow>)
    requires |ts| >= 5
    ensures r == NeRowOf(ts, ft)
  {
    var h0, h1, h2, h3, h4 := ParseInt(ts[0]), ParseInt(ts[1]), ParseInt(ts[2]), ParseInt(ts[3]), ParseInt(ts[4]);
    if h0.None? || h1.None? || h2.None? || h3.None? || h4.None? {
      return None;
    }
    var id, n1, n2, n3, n4 := h0.value, h1.value, h2.value, h3.value, h4.value;
    if |ts| < 5 + n1 + n2 + n3 + n4 + 4 {
      return None;
    }
    var isl1 := BuildIsl(ts, n1, 5);
    if isl1.None? { return None; }
    var isl2 := BuildIsl(ts, n2, 5 + n1);
    if isl2.None? { return None; }
    var isl3 := BuildIsl(ts, n3, 5 + n1 + n2);
    if isl3.None? { return None; }
    var isl4 := BuildIsl(ts, n4, 5 + n1 + n2 + n3);
    if isl4.None? { return None; }
    var xe, ye, ze, us := ft.parse(ts[|ts| - 4]), ft.parse(ts[|ts| - 3]), ft.parse(ts[|ts| - 2]), ft.parse(ts[|ts| - 1]);
    if xe.None? || ye.None? || ze.None? || us.None? {
      return None;
    }
    r := Some(NeRow(id, n1, n2, n3, n4, isl1.value, isl2.value, isl3.value, isl4.value,
                    xe.value, ye.value, ze.value, Trunc(us.value)));
  }

  /** `get_ne(path)`, the file given as its lines. */
  method GetNe(lines: seq<string>, ft: FloatText) returns (r: Result<NeData, LoadError>)
    ensures r == NeLoad(lines, ft)
  {
    var d := NE_START;
    ghost var rows: seq<NeRow> := [];
    for lineIdx := 0 to |lines|
      invariant NeRows(lines[..lineIdx], ft) == Ok(rows)
      invariant d == NeDataOf(rows)
    {
      assert lines[..lineIdx + 1][..lineIdx] == lines[..lineIdx];
      var rowData := Tokens(lines[lineIdx]);
      if |rowData| < 5 {
        continue;
      }
      var row := ParseNeLine(rowData, ft);
      if row.None? {
        NeRowsErrStays(lines, lineIdx + 1, ft);
        return Err(NeLineError(lineIdx + 1));
      }
      NeDataSnoc(rows, row.value);
      d := AddNe(d, row.value);
      rows := rows + [row.value];
    }
    assert lines[..|lines|] == lines;
    r := Ok(d);
  }

  /** Once a prefix of the lines fails, so does the whole file, the same way. */
  lemma {:induction false} NeRowsErrStays(lines: seq<string>, k: nat, ft: FloatText)
    requires k <= |lines| && NeRows(lines[..k], ft).Err?
    ensures NeRows(lines, ft) == NeRows(lines[..k], ft)
  {
    if k < |lines| {
      var init := lines[..|lines| - 1];
      assert init[..k] == lines[..k];
      NeRowsErrStays(init, k, ft);
    } else {
      assert lines[..k] == lines;
    }
  }

  /** A line of fewer than five tokens, in particular a blank one, leaves
      the load as it was. */
  lemma NeSkipsShortLines(lines: seq<string>, line: string, ft: FloatText)
    requires |Tokens(line)| < 5
    ensures NeLoad(lines + [line], ft) == NeLoad(lines, ft)
  {
    assert (lines + [line])[..|lines|] == lines;
  }

  lemma NeSkipsBlankLines(lines: seq<string>, line: string, ft: FloatText)
    requires IsBlank(line)
    ensures NeLoad(lines + [line], ft) == NeLoad(lines, ft)
  {
    BlankIffNoTokens(line);
    NeSkipsShortLines(lines, line, ft);
  }

  /** A line of five tokens or more whose first five are not all integers,
      or which is shorter than its counts demand, fails the load with its
      line number. */
  lemma NeRejectsLine(lines: seq<string>, line: string, ft: FloatText)
    requires NeRows(lines, ft).Ok?
    requires var ts := Tokens(line); |ts| >= 5 && (!HeaderInts(ts) || |ts| < MinRequired(ts))
    ensures NeLoad(lines + [line], ft) == Err(NeLineError(|lines| + 1))
  {
    var ts := Tokens(line);
    assert NeRowOf(ts, ft) == None;
    var all := lines + [line];
    assert all[..|all| - 1] == lines && all[|all| - 1] == line;
    assert NeRows(all, ft) == Err(NeLineError(|all|));
  }

  /** The slots of a side list: `max(10, n + 1)` of them, 0 at index 0, the
      n consecutive tokens from `start` at 1..n, and 0 after them. */
  lemma SlotsLayout(ts: seq<string>, n: int, start: int)
    requires SlotsOk(ts, n, start)
    ensures var s := Slots(ts, n, start);
      && |s| == Max(10, n + 1) && s[0] == 0
      && (forall j :: 1 <= j <= n ==> Some(s[j]) == IntAt(ts, start + j - 1))
      && (forall j :: Max(n, 0) < j < |s| ==> s[j] == 0)
  {
    var s := Slots(ts, n, start);
    forall j | 1 <= j <= n ensures Some(s[j]) == IntAt(ts, start + j - 1) {
      assert start <= start + j - 1 < start + n;
    }
  }

  // ---------------------------------------------------------------------
  // `write_ne`

  /** What the loop over `range(nsl_k[i])` reads: the slots 1..n of the
      side list, when it has them. */
  predicate SlotsReadable(isls: seq<seq<int>>, counts: seq<int>, i: nat)
    requires i < |counts|
  {
    counts[i] <= 0 || (i < |isls| && counts[i] < |isls[i]|)
  }

  function SlotTexts(isl: seq<int>, n: int): seq<string>
    requires n < |isl|
  {
    seq(Max(n, 0), j requires 0 <= j < Max(n, 0) => IntText(isl[j + 1]))
  }

  lemma SlotTextsSnoc(isl: seq<int>, n: nat)
    requires n + 1 < |isl|
    ensures SlotTexts(isl, n + 1) == SlotTexts(isl, n) + [IntText(isl[n + 1])]
  {
  }

  /** Row i can be written: every list is long enough at index i. */
  predicate NeRowWritable(d: NeData, i: nat)
  {
    && i < |d.gridIdList| && i < |d.nsl1List| && i < |d.nsl2List| && i < |d.nsl3List| && i < |d.nsl4List|
    && SlotsReadable(d.isl1List, d.nsl1List, i) && SlotsReadable(d.isl2List, d.nsl2List, i)
    && SlotsReadable(d.isl3List, d.nsl3List, i) && SlotsReadable(d.isl4List, d.nsl4List, i)
    && i < |d.xeList| && i < |d.yeList| && i < |d.zeList| && i < |d.underSufList|
  }

  function SlotsOf(isls: seq<seq<int>>, counts: seq<int>, i: nat): seq<string>
    requires i < |counts| && SlotsReadable(isls, counts, i)
  {
    if counts[i] <= 0 then [] else SlotTexts(isls[i], counts[i])
  }

  /** `row_parts` of row i: the id and the four counts, slots 1..n of each
      side list, the centre at 14 significant digits and the type. */
  function NeParts(d: NeData, i: nat, ft: FloatText): seq<string>
    requires NeRowWritable(d, i)
  {
    [IntText(d.gridIdList[i]), IntText(d.nsl1List[i]), IntText(d.nsl2List[i]), IntText(d.nsl3List[i]),
     IntText(d.nsl4List[i])]
    + SlotsOf(d.isl1List, d.nsl1List, i) + SlotsOf(d.isl2List, d.nsl2List, i)
    + SlotsOf(d.isl3List, d.nsl3List, i) + SlotsOf(d.isl4List, d.nsl4List, i)
    + [ft.fixed14(d.xeList[i]), ft.fixed14(d.yeList[i]), ft.fixed14(d.zeList[i]), IntText(d.underSufList[i])]
  }

  predicate NeWritable(d: NeData)
  {
    forall i :: 1 <= i < |d.gridIdList| ==> NeRowWritable(d, i)
  }

  /** Row i as one line, or None for the IndexError. */
  function NeLine(d: NeData, i: nat, ft: FloatText): Option<string>
  {
    if NeRowWritable(d, i) then Some(JoinSpace(NeParts(d, i, ft))) else None
  }

  /** The row formatter of `write_ne`. */
  function NeLineOf(d: NeData, ft: FloatText): nat -> Option<string>
  {
    (i: nat) => NeLine(d, i, ft)
  }

  /** The lines `write_ne` writes: rows 1.. of the lists, or the IndexError. */
  function NeText(d: NeData, ft: FloatText): Result<seq<string>, WriteError>
  {
    Lines(NeLineOf(d, ft), Max(|d.gridIdList| - 1, 0))
  }

  /** `write_ne` fails exactly when some row 1.. cannot be written, and
      otherwise writes one line per row. */
  lemma NeTextOk(d: NeData, ft: FloatText)
    ensures NeText(d, ft).Ok? <==> NeWritable(d)
    ensures NeText(d, ft).Ok? ==> |NeText(d, ft).value| == Max(|d.gridIdList| - 1, 0)
    ensures NeText(d, ft).Err? ==> NeText(d, ft) == Err(IndexError)
  {
    var lineOf := NeLineOf(d, ft);
    var m := Max(|d.gridIdList| - 1, 0);
    LinesOk(lineOf, m);
    LinesLength(lineOf, m);
    LinesErr(lineOf, m);
    forall k: nat | 1 <= k <= m ensures lineOf(k).Some? <==> NeRowWritable(d, k) {
      assert lineOf(k) == NeLine(d, k, ft);
    }
  }

  /** The loop over `range(nsl_k[i])` appending `str(isl_k[i][j + 1])`. */
  method AppendSlots(parts: seq<string>, isls: seq<seq<int>>, counts: seq<int>, i: nat) returns (r: Option<seq<string>>)
    requires i < |counts|
    ensures r.Some? <==> SlotsReadable(isls, counts, i)
    ensures r.Some? ==> r.value == parts + SlotsOf(isls, counts, i)
  {
    var out := parts;
    var j := 0;
    while j < counts[i]
      invariant 0 <= j <= Max(counts[i], 0)
      invariant j == 0 ==> out == parts
      invariant j > 0 ==> i < |isls| && j < |isls[i]| && out == parts + SlotTexts(isls[i], j)
    {
      if i >= |isls| || j + 1 >= |isls[i]| {
        return None;
      }
      SlotTextsSnoc(isls[i], j);
      out := out + [IntText(isls[i][j + 1])];
      j := j + 1;
    }
    if counts[i] <= 0 {
      assert out == parts + [];
    }
    r := Some(out);
  }

  /** The body of `write_ne`'s loop for row i. */
  method NeRowText(d: NeData, i: nat, ft: FloatText) returns (r: Option<string>)
    requires i < |d.gridIdList|
    ensures r == NeLine(d, i, ft)
  {
    if i >= |d.nsl1List| || i >= |d.nsl2List| || i >= |d.nsl3List| || i >= |d.nsl4List| {
      return None;
    }
    var rowParts := [IntText(d.gridIdList[i]), IntText(d.nsl1List[i]), IntText(d.nsl2List[i]),
                     IntText(d.nsl3List[i]), IntText(d.nsl4List[i])];
    var p1 := AppendSlots(rowParts, d.isl1List, d.nsl1List, i);
    if p1.None? { return None; }
    var p2 := AppendSlots(p1.value, d.isl2List, d.nsl2List, i);
    if p2.None? { return None; }
    var p3 := AppendSlots(p2.value, d.isl3List, d.nsl3List, i);
    if p3.None? { return None; }
    var p4 := AppendSlots(p3.value, d.isl4List, d.nsl4List, i);
    if p4.None? { return None; }
    if i >= |d.xeList| || i >= |d.yeList| || i >= |d.zeList| || i >= |d.underSufList| {
      return None;
    }
    var parts := p4.value + [ft.fixed14(d.xeList[i]), ft.fixed14(d.yeList[i]), ft.fixed14(d.zeList[i]),
                             IntText(d.underSufList[i])];
    assert parts == NeParts(d, i, ft);
    r := Some(JoinSpace(parts));
  }

  /** One pass of `write_ne`'s loop: row i appended, or the IndexError. */
  method NeWriteRow(d: NeData, ft: FloatText, i: nat, lines: seq<string>) returns (r: Result<seq<string>, WriteError>)
    requires 1 <= i < |d.gridIdList| && Lines(NeLineOf(d, ft), i - 1) == Ok(lines)
    ensures r == Lines(NeLineOf(d, ft), i)
  {
    var line := NeRowText(d, i, ft);
    assert line == NeLineOf(d, ft)(i);
    if line.None? {
      return Err(IndexError);
    }
    r := Ok(lines + [line.value]);
  }

  /** A row that raises ends `write_ne` with the IndexError. */
  lemma NeTextStops(d: NeData, ft: FloatText, i: nat)
    requires 1 <= i < |d.gridIdList| && Lines(NeLineOf(d, ft), i).Err?
    ensures NeText(d, ft) == Err(IndexError)
  {
    LinesErrStays(NeLineOf(d, ft), i, |d.gridIdList| - 1);
    LinesErr(NeLineOf(d, ft), i);
  }

  /** `write_ne(path, ne_data)`, giving the lines of the file. */
  method WriteNe(d: NeData, ft: FloatText) returns (r: Result<seq<string>, WriteError>)
    ensures r == NeText(d, ft)
  {
    var lines := [];
    var rows := Max(|d.gridIdList| - 1, 0);
    for k := 0 to rows
      invariant Lines(NeLineOf(d, ft), k) == Ok(lines)
    {
      var step := NeWriteRow(d, ft, k + 1, lines);
      if step.Err? {
        NeTextStops(d, ft, k + 1);
        return Err(IndexError);
      }
      lines := step.value;
    }
    r := Ok(lines);
  }

  // ---------------------------------------------------------------------
  // `get_ne` after `write_ne`

  /** Row i as `get_ne` can read it back: every list has it, and each count
      is non-negative and within its side list. */
  predicate NeRowCanonical(d: NeData, i: nat)
  {
    && NeRowWritable(d, i)
    && i < |d.isl1List| && i < |d.isl2List| && i < |d.isl3List| && i < |d.isl4List|
    && 0 <= d.nsl1List[i] < |d.isl1List[i]| && 0 <= d.nsl2List[i] < |d.isl2List[i]|
    && 0 <= d.nsl3List[i] < |d.isl3List[i]| && 0 <= d.nsl4List[i] < |d.isl4List[i]|
  }

  predicate NeCanonical(d: NeData)
  {
    forall i :: 1 <= i < |d.gridIdList| ==> NeRowCanonical(d, i)
  }

  /** The entries at index i of every list. */
  function NeRowAt(d: NeData, i: nat): NeRow
    requires NeRowCanonical(d, i)
  {
    NeRow(d.gridIdList[i], d.nsl1List[i], d.nsl2List[i], d.nsl3List[i], d.nsl4List[i],
          d.isl1List[i], d.isl2List[i], d.isl3List[i], d.isl4List[i],
          d.xeList[i], d.yeList[i], d.zeList[i], d.underSufList[i])
  }

  /** Each count non-negative and within its side list. */
  predicate RowCanonical(r: NeRow)
  {
    0 <= r.nsl1 < |r.isl1| && 0 <= r.nsl2 < |r.isl2| && 0 <= r.nsl3 < |r.isl3| && 0 <= r.nsl4 < |r.isl4|
  }

  function RowHead(r: NeRow): seq<string>
  {
    [IntText(r.gridId), IntText(r.nsl1), IntText(r.nsl2), IntText(r.nsl3), IntText(r.nsl4)]
  }

  function RowTail(r: NeRow, ft: FloatText): seq<string>
  {
    [ft.fixed14(r.xe), ft.fixed14(r.ye), ft.fixed14(r.ze), IntText(r.underSuf)]
  }

  /** The parts `write_ne` writes for a row. */
  function RowParts(r: NeRow, ft: FloatText): seq<string>
    requires RowCanonical(r)
  {
    RowHead(r) + (SlotTexts(r.isl1, r.nsl1) + (SlotTexts(r.isl2, r.nsl2) + (SlotTexts(r.isl3, r.nsl3)
    + (SlotTexts(r.isl4, r.nsl4) + RowTail(r, ft)))))
  }

  lemma SlotsOfCanonical(isls: seq<seq<int>>, counts: seq<int>, i: nat)
    requires i < |counts| && i < |isls| && 0 <= counts[i] < |isls[i]|
    ensures SlotsReadable(isls, counts, i) && SlotsOf(isls, counts, i) == SlotTexts(isls[i], counts[i])
  {
  }

  lemma NeRowAtCanonical(d: NeData, i: nat)
    requires NeRowCanonical(d, i)
    ensures RowCanonical(NeRowAt(d, i))
  {
  }

  lemma NePartsOfRow(d: NeData, i: nat, ft: FloatText)
    requires NeRowCanonical(d, i)
    ensures RowCanonical(NeRowAt(d, i)) && NeParts(d, i, ft) == RowParts(NeRowAt(d, i), ft)
  {
    SlotsOfCanonical(d.isl1List, d.nsl1List, i);
    SlotsOfCanonical(d.isl2List, d.nsl2List, i);
    SlotsOfCanonical(d.isl3List, d.nsl3List, i);
    SlotsOfCanonical(d.isl4List, d.nsl4List, i);
    var r := NeRowAt(d, i);
    RightNested(RowHead(r), SlotTexts(r.isl1, r.nsl1), SlotTexts(r.isl2, r.nsl2), SlotTexts(r.isl3, r.nsl3),
                SlotTexts(r.isl4, r.nsl4), RowTail(r, ft));
  }

  lemma RightNested(a: seq<string>, b: seq<string>, c: seq<string>, d: seq<string>, e: seq<string>, f: seq<string>)
    ensures a + b + c + d + e + f == a + (b + (c + (d + (e + f))))
  {
  }

  /** A side list as `build_isl` rebuilds it from its first n slots. */
  function Resized(isl: seq<int>, n: nat): (r: seq<int>)
    requires n < |isl|
    ensures |r| == Max(10, n + 1) && r[0] == 0
    ensures forall j :: 1 <= j <= n ==> r[j] == isl[j]
    ensures forall j :: n < j < |r| ==> r[j] == 0
  {
    seq(Max(10, n + 1), j requires 0 <= j < Max(10, n + 1) => if 1 <= j <= n then isl[j] else 0)
  }

  /** A row after writing and reading back: the integers unchanged, each
      side list cut to its count, the floats through their text. */
  function ReadBack(r: NeRow, ft: FloatText): NeRow
    requires RowCanonical(r) && FloatsRead(ft)
  {
    NeRow(r.gridId, r.nsl1, r.nsl2, r.nsl3, r.nsl4,
          Resized(r.isl1, r.nsl1), Resized(r.isl2, r.nsl2), Resized(r.isl3, r.nsl3), Resized(r.isl4, r.nsl4),
          ft.parse(ft.fixed14(r.xe)).value, ft.parse(ft.fixed14(r.ye)).value, ft.parse(ft.fixed14(r.ze)).value,
          Trunc(ft.parse(IntText(r.underSuf)).value))
  }

  lemma SlotTextsTokens(isl: seq<int>, n: nat)
    requires n < |isl|
    ensures AllTokens(SlotTexts(isl, n))
  {
    forall j | 0 <= j < n ensures IsToken(SlotTexts(isl, n)[j]) {
      IntTextToken(isl[j + 1]);
    }
  }

  lemma RowPartsTokens(r: NeRow, ft: FloatText)
    requires RowCanonical(r) && FloatsRead(ft)
    ensures AllTokens(RowParts(r, ft))
  {
    IntTextToken(r.gridId);
    IntTextToken(r.nsl1);
    IntTextToken(r.nsl2);
    IntTextToken(r.nsl3);
    IntTextToken(r.nsl4);
    IntTextToken(r.underSuf);
    assert AllTokens(RowHead(r));
    assert AllTokens(RowTail(r, ft));
    SlotTextsTokens(r.isl1, r.nsl1);
    SlotTextsTokens(r.isl2, r.nsl2);
    SlotTextsTokens(r.isl3, r.nsl3);
    SlotTextsTokens(r.isl4, r.nsl4);
    AllTokensConcat(SlotTexts(r.isl4, r.nsl4), RowTail(r, ft));
    AllTokensConcat(SlotTexts(r.isl3, r.nsl3), SlotTexts(r.isl4, r.nsl4) + RowTail(r, ft));
    AllTokensConcat(SlotTexts(r.isl2, r.nsl2), SlotTexts(r.isl3, r.nsl3) + (SlotTexts(r.isl4, r.nsl4) + RowTail(r, ft)));
    AllTokensConcat(SlotTexts(r.isl1, r.nsl1), SlotTexts(r.isl2, r.nsl2) + (SlotTexts(r.isl3, r.nsl3)
                    + (SlotTexts(r.isl4, r.nsl4) + RowTail(r, ft))));
    AllTokensConcat(RowHead(r), SlotTexts(r.isl1, r.nsl1) + (SlotTexts(r.isl2, r.nsl2) + (SlotTexts(r.isl3, r.nsl3)
                    + (SlotTexts(r.isl4, r.nsl4) + RowTail(r, ft)))));
  }

  /** Side-list slots written after `pre` are read back from offset `|pre|`. */
  lemma SlotsAt(ts: seq<string>, pre: seq<string>, isl: seq<int>, n: nat, post: seq<string>)
    requires n < |isl| && ts == pre + (SlotTexts(isl, n) + post)
    ensures SlotsOk(ts, n, |pre|) && Slots(ts, n, |pre|) == Resized(isl, n)
  {
    IntsAt(ts, pre, isl, n, post);
    SlotsOfInts(ts, |pre|, isl, n);
  }

  lemma IntsAt(ts: seq<string>, pre: seq<string>, isl: seq<int>, n: nat, post: seq<string>)
    requires n < |isl| && ts == pre + (SlotTexts(isl, n) + post)
    ensures forall k :: |pre| <= k < |pre| + n ==> IntAt(ts, k) == Some(isl[k - |pre| + 1])
  {
    forall k | |pre| <= k < |pre| + n ensures IntAt(ts, k) == Some(isl[k - |pre| + 1]) {
      IntAtSlot(ts, pre, isl, n, post, k - |pre|);
    }
  }

  lemma IntAtSlot(ts: seq<string>, pre: seq<string>, isl: seq<int>, n: nat, post: seq<string>, j: nat)
    requires n < |isl| && ts == pre + (SlotTexts(isl, n) + post) && j < n
    ensures IntAt(ts, |pre| + j) == Some(isl[j + 1])
  {
    var st := SlotTexts(isl, n);
    assert (st + post)[j] == st[j];
    assert ts[|pre| + j] == (st + post)[j];
    assert st[j] == IntText(isl[j + 1]);
    ParseIntText(isl[j + 1]);
  }

  lemma SlotsOfInts(ts: seq<string>, start: int, isl: seq<int>, n: nat)
    requires n < |isl|
    requires forall k :: start <= k < start + n ==> IntAt(ts, k) == Some(isl[k - start + 1])
    ensures SlotsOk(ts, n, start) && Slots(ts, n, start) == Resized(isl, n)
  {
    forall j | 1 <= j <= n ensures SlotValue(ts, start, j) == isl[j] {
      assert IntAt(ts, start + j - 1) == Some(isl[j]);
    }
  }

  lemma Assoc(a: seq<string>, b: seq<string>, c: seq<string>)
    ensures a + (b + c) == (a + b) + c
  {
  }

  /** The four side lists of a written row are read from their offsets. */
  lemma RowSlots(r: NeRow, ft: FloatText)
    requires RowCanonical(r)
    ensures var ts := RowParts(r, ft);
      && SlotsOk(ts, r.nsl1, 5) && Slots(ts, r.nsl1, 5) == Resized(r.isl1, r.nsl1)
      && SlotsOk(ts, r.nsl2, 5 + r.nsl1) && Slots(ts, r.nsl2, 5 + r.nsl1) == Resized(r.isl2, r.nsl2)
      && SlotsOk(ts, r.nsl3, 5 + r.nsl1 + r.nsl2) && Slots(ts, r.nsl3, 5 + r.nsl1 + r.nsl2) == Resized(r.isl3, r.nsl3)
      && SlotsOk(ts, r.nsl4, 5 + r.nsl1 + r.nsl2 + r.nsl3)
      && Slots(ts, r.nsl4, 5 + r.nsl1 + r.nsl2 + r.nsl3) == Resized(r.isl4, r.nsl4)
      && ts[|ts| - 4..] == RowTail(r, ft) && |ts| == 9 + r.nsl1 + r.nsl2 + r.nsl3 + r.nsl4
  {
    var ts := RowParts(r, ft);
    var s1, s2, s3, s4 := SlotTexts(r.isl1, r.nsl1), SlotTexts(r.isl2, r.nsl2),
                          SlotTexts(r.isl3, r.nsl3), SlotTexts(r.isl4, r.nsl4);
    var x4 := s4 + RowTail(r, ft);
    var x3 := s3 + x4;
    var x2 := s2 + x3;
    var p1 := RowHead(r);
    var p2 := p1 + s1;
    var p3 := p2 + s2;
    var p4 := p3 + s3;
    assert |p1| == 5 && |s1| == r.nsl1 && |s2| == r.nsl2 && |s3| == r.nsl3 && |s4| == r.nsl4;
    SlotsAt(ts, p1, r.isl1, r.nsl1, x2);
    Assoc(p1, s1, x2);
    assert ts == p2 + (s2 + x3) && |p2| == 5 + r.nsl1;
    SlotsAt(ts, p2, r.isl2, r.nsl2, x3);
    Assoc(p2, s2, x3);
    assert ts == p3 + (s3 + x4) && |p3| == 5 + r.nsl1 + r.nsl2;
    SlotsAt(ts, p3, r.isl3, r.nsl3, x4);
    Assoc(p3, s3, x4);
    assert ts == p4 + (s4 + RowTail(r, ft)) && |p4| == 5 + r.nsl1 + r.nsl2 + r.nsl3;
    SlotsAt(ts, p4, r.isl4, r.nsl4, RowTail(r, ft));
    Assoc(p4, s4, RowTail(r, ft));
    assert ts == (p4 + s4) + RowTail(r, ft);
  }

  /** The header of a written row reads back as its id and counts, and the
      row is exactly as long as its counts demand. */
  lemma RowHeaderRead(r: NeRow, ft: FloatText)
    requires RowCanonical(r)
    ensures var ts := RowParts(r, ft);
      && |ts| == 9 + r.nsl1 + r.nsl2 + r.nsl3 + r.nsl4 && HeaderInts(ts)
      && ParseInt(ts[0]) == Some(r.gridId) && ParseInt(ts[1]) == Some(r.nsl1) && ParseInt(ts[2]) == Some(r.nsl2)
      && ParseInt(ts[3]) == Some(r.nsl3) && ParseInt(ts[4]) == Some(r.nsl4) && MinRequired(ts) == |ts|
  {
    var ts := RowParts(r, ft);
    assert ts[..5] == RowHead(r);
    ParseIntText(r.gridId);
    ParseIntText(r.nsl1);
    ParseIntText(r.nsl2);
    ParseIntText(r.nsl3);
    ParseIntText(r.nsl4);
  }

  lemma RowTailRead(r: NeRow, ft: FloatText)
    requires RowCanonical(r)
    ensures var ts := RowParts(r, ft);
      && |ts| >= 4 && ts[|ts| - 4] == ft.fixed14(r.xe) && ts[|ts| - 3] == ft.fixed14(r.ye)
      && ts[|ts| - 2] == ft.fixed14(r.ze) && ts[|ts| - 1] == IntText(r.underSuf)
  {
    RowSlots(r, ft);
    var ts := RowParts(r, ft);
    assert ts[|ts| - 4..][0] == ts[|ts| - 4];
    assert ts[|ts| - 4..][3] == ts[|ts| - 1];
  }

  /** `get_ne`'s reading of the parts of a written row is `ReadBack`. */
  lemma RowRead(r: NeRow, ft: FloatText)
    requires RowCanonical(r) && FloatsRead(ft)
    ensures |RowParts(r, ft)| >= 5 && NeRowOf(RowParts(r, ft), ft) == Some(ReadBack(r, ft))
  {
    var ts := RowParts(r, ft);
    RowHeaderRead(r, ft);
    RowSlots(r, ft);
    RowTailRead(r, ft);
    assert !(!HeaderInts(ts) || |ts| < MinRequired(ts));
    var xe, ye, ze, us := ft.parse(ts[|ts| - 4]), ft.parse(ts[|ts| - 3]), ft.parse(ts[|ts| - 2]), ft.parse(ts[|ts| - 1]);
    assert xe == ft.parse(ft.fixed14(r.xe)) && ye == ft.parse(ft.fixed14(r.ye)) && ze == ft.parse(ft.fixed14(r.ze));
    assert us == ft.parse(IntText(r.underSuf));
  }

  /** `get_ne` reads a line `write_ne` wrote for a row back as `ReadBack`. */
  lemma RowRoundTrip(r: NeRow, ft: FloatText)
    requires RowCanonical(r) && FloatsRead(ft)
    ensures var ts := Tokens(JoinSpace(RowParts(r, ft)));
      |ts| >= 5 && NeRowOf(ts, ft) == Some(ReadBack(r, ft))
  {
    RowPartsTokens(r, ft);
    TokensOfJoin(RowParts(r, ft));
    RowRead(r, ft);
  }

  predicate AllCanonical(rs: seq<NeRow>)
  {
    forall k :: 0 <= k < |rs| ==> RowCanonical(rs[k])
  }

  /** The lines `write_ne` writes for the rows `rs`. */
  function WrittenLines(rs: seq<NeRow>, ft: FloatText): seq<string>
    requires AllCanonical(rs)
  {
    if rs == [] then [] else WrittenLines(rs[..|rs| - 1], ft) + [JoinSpace(RowParts(rs[|rs| - 1], ft))]
  }

  lemma {:induction false} WrittenLinesAt(rs: seq<NeRow>, ft: FloatText)
    requires AllCanonical(rs)
    ensures |WrittenLines(rs, ft)| == |rs|
    ensures forall k :: 0 <= k < |rs| ==> WrittenLines(rs, ft)[k] == JoinSpace(RowParts(rs[k], ft))
  {
    if rs != [] {
      WrittenLinesAt(rs[..|rs| - 1], ft);
    }
  }

  /** The rows `rs` as `get_ne` reads them back. */
  function ReadBacks(rs: seq<NeRow>, ft: FloatText): seq<NeRow>
    requires AllCanonical(rs) && FloatsRead(ft)
  {
    if rs == [] then [] else ReadBacks(rs[..|rs| - 1], ft) + [ReadBack(rs[|rs| - 1], ft)]
  }

  lemma {:induction false} ReadBacksAt(rs: seq<NeRow>, ft: FloatText)
    requires AllCanonical(rs) && FloatsRead(ft)
    ensures |ReadBacks(rs, ft)| == |rs|
    ensures forall k :: 0 <= k < |rs| ==> ReadBacks(rs, ft)[k] == ReadBack(rs[k], ft)
  {
    if rs != [] {
      ReadBacksAt(rs[..|rs| - 1], ft);
    }
  }

  /** Every written line is a data line, read back row by row. */
  lemma {:induction false} ReadWrittenLines(rs: seq<NeRow>, ft: FloatText)
    requires AllCanonical(rs) && FloatsRead(ft)
    ensures NeRows(WrittenLines(rs, ft), ft) == Ok(ReadBacks(rs, ft))
  {
    if rs != [] {
      var init, last := rs[..|rs| - 1], rs[|rs| - 1];
      var lines := WrittenLines(rs, ft);
      ReadWrittenLines(init, ft);
      assert lines[..|lines| - 1] == WrittenLines(init, ft);
      RowRoundTrip(last, ft);
      NeRowsSnoc(lines, ft, ReadBacks(init, ft), ReadBack(last, ft));
    }
  }

  /** One more data line read into a row. */
  lemma NeRowsSnoc(lines: seq<string>, ft: FloatText, rows: seq<NeRow>, r: NeRow)
    requires |lines| > 0 && NeRows(lines[..|lines| - 1], ft) == Ok(rows)
    requires var ts := Tokens(lines[|lines| - 1]); |ts| >= 5 && NeRowOf(ts, ft) == Some(r)
    ensures NeRows(lines, ft) == Ok(rows + [r])
  {
  }

  /** Rows 1..m of the lists. */
  function NeRowsUpTo(d: NeData, m: nat): (rs: seq<NeRow>)
    requires forall i :: 1 <= i <= m ==> NeRowCanonical(d, i)
    ensures |rs| == m && AllCanonical(rs)
  {
    if m == 0 then [] else NeRowAtCanonical(d, m); NeRowsUpTo(d, m - 1) + [NeRowAt(d, m)]
  }

  /** Element k of `NeRowsUpTo` is the entries at index k + 1. */
  lemma {:induction false} NeRowsUpToAt(d: NeData, m: nat)
    requires forall i :: 1 <= i <= m ==> NeRowCanonical(d, i)
    ensures forall k :: 0 <= k < m ==> NeRowsUpTo(d, m)[k] == NeRowAt(d, k + 1)
  {
    if m > 0 {
      NeRowsUpToAt(d, m - 1);
    }
  }



  /** The lines of rows 1..m are the written lines of those rows. */
  lemma {:induction false} NeLinesRows(d: NeData, ft: FloatText, m: nat)
    requires forall i :: 1 <= i <= m ==> NeRowCanonical(d, i)
    ensures Lines(NeLineOf(d, ft), m) == Ok(WrittenLines(NeRowsUpTo(d, m), ft))
  {
    if m > 0 {
      var r := NeRowAt(d, m);
      var prev := WrittenLines(NeRowsUpTo(d, m - 1), ft);
      NeLinesRows(d, ft, m - 1);
      NeLineOfRow(d, ft, m);
      LinesSnoc(NeLineOf(d, ft), m, prev, JoinSpace(RowParts(r, ft)));
      assert NeRowsUpTo(d, m) == NeRowsUpTo(d, m - 1) + [r];
      WrittenLinesSnoc(NeRowsUpTo(d, m - 1), r, ft);
    }
  }

  /** Row i of canonical data is written as the line of its entries. */
  lemma NeLineOfRow(d: NeData, ft: FloatText, i: nat)
    requires NeRowCanonical(d, i)
    ensures RowCanonical(NeRowAt(d, i)) && NeLineOf(d, ft)(i) == Some(JoinSpace(RowParts(NeRowAt(d, i), ft)))
  {
    NePartsOfRow(d, i, ft);
    assert NeLineOf(d, ft)(i) == NeLine(d, i, ft);
  }

  lemma WrittenLinesSnoc(rs: seq<NeRow>, r: NeRow, ft: FloatText)
    requires AllCanonical(rs) && RowCanonical(r)
    ensures AllCanonical(rs + [r]) && WrittenLines(rs + [r], ft) == WrittenLines(rs, ft) + [JoinSpace(RowParts(r, ft))]
  {
    assert (rs + [r])[..|rs|] == rs;
  }

  /** Rows 1.. of the lists. */
  function NeRowsAt(d: NeData): (rs: seq<NeRow>)
    requires NeCanonical(d) && |d.gridIdList| > 0
    ensures |rs| == |d.gridIdList| - 1 && AllCanonical(rs)
  {
    NeRowsUpTo(d, |d.gridIdList| - 1)
  }

  /** `get_ne(write_ne(d))`: the lists of canonical data come back with the
      placeholders at index 0 and, at every index i >= 1, the same id,
      counts and side-list slots 1..n, the other slots zero, and the floats
      as `float` reads their text. */
  lemma NeRoundTrip(d: NeData, ft: FloatText)
    requires NeCanonical(d) && FloatsRead(ft) && |d.gridIdList| > 0
    ensures NeText(d, ft).Ok?
    ensures NeLoad(NeText(d, ft).value, ft) == Ok(NeDataOf(ReadBacks(NeRowsAt(d), ft)))
  {
    NeLinesRows(d, ft, |d.gridIdList| - 1);
    ReadWrittenLines(NeRowsAt(d), ft);
  }
}
