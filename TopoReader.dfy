/** The topology stream reader of server/crms/grid.py: `HydroElement` and
    `HydroSide` decode one record each, `HydroElements` and `HydroSides` walk
    a stream of u32-length-prefixed records, and `ne`/`ns` turn a decoded
    record into a row of the NE/NS text files. The doubles stay as their
    eight bytes; the float centres and lengths of the rows are kept as the
    operation and its operands (`Mid`, `Span`). */
module TopoReader {
  import opened Bytes
  import opened Wrappers
  import opened Text
  import opened Geometry
  import opened GridCache
  import opened Edges
  import opened Records

  /** The failures of the reader: `struct.error` while unpacking, and the
      ValueError `mmap.mmap(f.fileno(), 0)` raises for an empty file. */
  datatype ReadError = UnpackError | EmptyFile

  // ---------------------------------------------------------------------
  // `HydroElement.__init__`

  datatype HydroElement = HydroElement(index: nat, bounds: Bounds, altitude: F64, typ: int,
                                       left: seq<nat>, right: seq<nat>, bottom: seq<nat>, top: seq<nat>)

  function F64At(data: seq<Byte>, i: nat): F64
    requires i + 8 <= |data|
  {
    data[i..i + 8]
  }

  function BoundsAt(data: seq<Byte>, i: nat): Bounds
    requires i + 32 <= |data|
  {
    Bounds(F64At(data, i), F64At(data, i + 8), F64At(data, i + 16), F64At(data, i + 24))
  }

  /** `struct.unpack('!' + 'Q' * n, s)` for 8n bytes. */
  function U64List(s: seq<Byte>, n: nat): (r: seq<nat>)
    requires |s| == 8 * n
    ensures |r| == n
  {
    seq(n, i requires 0 <= i < n => FromBE(s[8 * i..8 * i + 8]))
  }

  /** The i-th eight bytes of packed values are the i-th value. */
  lemma {:induction false} U64sAt(xs: seq<nat>, i: nat)
    requires U64sFit(xs) && i < |xs|
    ensures xs[i] < Pow256(8) && U64s(xs)[8 * i..8 * i + 8] == BE(xs[i], 8)
  {
    var k := |xs| - 1;
    if i < k {
      U64sAt(xs[..k], i);
      assert U64s(xs)[8 * i..8 * i + 8] == U64s(xs[..k])[8 * i..8 * i + 8];
    }
  }

  lemma U64ListElem(xs: seq<nat>, i: nat)
    requires U64sFit(xs) && i < |xs|
    ensures U64List(U64s(xs), |xs|)[i] == xs[i]
  {
    PowValues();
    U64sAt(xs, i);
    FromBEOfBE(xs[i], 8);
  }

  /** Unpacking what '!Q' packed gives back the values. */
  lemma U64ListOfU64s(xs: seq<nat>)
    requires U64sFit(xs)
    ensures U64List(U64s(xs), |xs|) == xs
  {
    forall i | 0 <= i < |xs| ensures U64List(U64s(xs), |xs|)[i] == xs[i] {
      U64ListElem(xs, i);
    }
  }

  lemma {:induction false} U64sAppend(xs: seq<nat>, ys: seq<nat>)
    requires U64sFit(xs) && U64sFit(ys)
    ensures U64sFit(xs + ys) && U64s(xs + ys) == U64s(xs) + U64s(ys)
  {
    if ys != [] {
      var k := |ys| - 1;
      assert (xs + ys)[..|xs + ys| - 1] == xs + ys[..k];
      U64sAppend(xs, ys[..k]);
    } else {
      assert xs + ys == xs;
    }
  }

  /** The sum of the four counts of a cell header. */
  function IdCount(data: seq<Byte>): nat
    requires |data| >= CELL_HEADER_SIZE
  {
    data[49] as nat + data[50] as nat + data[51] as nat + data[52] as nat
  }

  /** The id lists of a well-sized record: the unpacked ids cut, in
      order, at the left, right, bottom and top counts. */
  function SplitIds(data: seq<Byte>): (r: (seq<nat>, seq<nat>, seq<nat>, seq<nat>))
    requires |data| >= CELL_HEADER_SIZE && |data| == CELL_HEADER_SIZE + 8 * IdCount(data)
    ensures |r.0| == data[49] as nat && |r.1| == data[50] as nat && |r.2| == data[51] as nat && |r.3| == data[52] as nat
    ensures r.0 + r.1 + r.2 + r.3 == U64List(data[CELL_HEADER_SIZE..], IdCount(data))
  {
    var nl, nr, nb := data[49] as nat, data[50] as nat, data[51] as nat;
    var edges := U64List(data[CELL_HEADER_SIZE..], IdCount(data));
    var r := (edges[..nl], edges[nl..nl + nr], edges[nl + nr..nl + nr + nb], edges[nl + nr + nb..]);
    assert r.0 + r.1 + r.2 + r.3 == edges;
    r
  }

  /** `HydroElement(data)`: the '!QdddddBBBBB' header, then exactly 8 bytes
      per edge id, split in order into the left, right, bottom and top
      lists by the four counts. Any other length is a struct.error. */
  function DecodeElement(data: seq<Byte>): (r: Result<HydroElement, ReadError>)
    ensures r.Ok? <==> |data| >= CELL_HEADER_SIZE && |data| == CELL_HEADER_SIZE + 8 * IdCount(data)
  {
    if |data| < CELL_HEADER_SIZE || |data| != CELL_HEADER_SIZE + 8 * IdCount(data) then Err(UnpackError)
    else
      var (left, right, bottom, top) := SplitIds(data);
      Ok(HydroElement(FromBE(data[..8]), BoundsAt(data, 8), F64At(data, 40), data[48], left, right, bottom, top))
  }

  // ---------------------------------------------------------------------
  // `HydroSide.__init__`

  /** The two cells are `grid_index_a` and `grid_index_b`. */
  datatype HydroSide = HydroSide(index: nat, direction: nat, bounds: Bounds, gridA: nat, gridB: nat,
                                 altitude: F64, typ: int)

  /** `HydroSide(data)`: '!QBddddQQdi', which takes exactly 69 bytes. */
  function DecodeSide(data: seq<Byte>): (r: Result<HydroSide, ReadError>)
    ensures r.Ok? <==> |data| == EDGE_RECORD_SIZE
  {
    if |data| != EDGE_RECORD_SIZE then Err(UnpackError)
    else
      Ok(HydroSide(FromBE(data[..8]), data[8], BoundsAt(data, 9), FromBE(data[41..49]), FromBE(data[49..57]),
                   F64At(data, 57), FromI32BE(data[65..69])))
  }

  // ---------------------------------------------------------------------
  // Writer and reader agree on the layouts

  lemma BEOne(x: nat)
    requires x < U8_LIMIT
    ensures x < Pow256(1) && BE(x, 1) == [x]
  {
    PowValues();
  }

  /** The bytes of a bounds value read back at their offset. */
  lemma BoundsAtBytes(pre: seq<Byte>, b: Bounds, post: seq<Byte>)
    ensures BoundsAt(pre + BoundsBytes(b) + post, |pre|) == b
  {
    var s := pre + BoundsBytes(b) + post;
    var i := |pre|;
    assert s[i..i + 8] == b.minX;
    assert s[i + 8..i + 16] == b.minY;
    assert s[i + 16..i + 24] == b.maxX;
    assert s[i + 24..i + 32] == b.maxY;
  }

  /** The fields of a cell header read back at their offsets. */
  lemma CellHeaderFields(index: nat, b: Bounds, altitude: F64, lumType: nat, counts: seq<nat>, tail: seq<Byte>)
    requires index < U64_LIMIT && lumType < U8_LIMIT
    requires |counts| == 4 && forall d :: 0 <= d < 4 ==> counts[d] < U8_LIMIT
    ensures var rec := CellHeader(index, b, altitude, lumType, counts) + tail;
      && |rec| == CELL_HEADER_SIZE + |tail|
      && FromBE(rec[..8]) == index && BoundsAt(rec, 8) == b && F64At(rec, 40) == altitude
      && rec[48] as nat == lumType && rec[49] as nat == counts[0] && rec[50] as nat == counts[1]
      && rec[51] as nat == counts[2] && rec[52] as nat == counts[3]
      && rec[CELL_HEADER_SIZE..] == tail
  {
    PowValues();
    var pre := BE(index, 8);
    var small: seq<Byte> := [lumType as Byte, counts[0] as Byte, counts[1] as Byte, counts[2] as Byte, counts[3] as Byte];
    var rec := CellHeader(index, b, altitude, lumType, counts) + tail;
    assert rec == pre + BoundsBytes(b) + (altitude + small + tail);
    BoundsAtBytes(pre, b, altitude + small + tail);
    assert rec[..8] == pre;
    FromBEOfBE(index, 8);
  }

  /** The id bytes of a cell record are the four sorted lists packed in order. */
  lemma CellIdsPacked(edges: seq<set<nat>>)
    requires |edges| == 4 && forall d, x :: 0 <= d < 4 && x in edges[d] ==> x + 1 < U64_LIMIT
    ensures var ids := SideIds(edges[WEST]) + SideIds(edges[EAST]) + SideIds(edges[SOUTH]) + SideIds(edges[NORTH]);
      U64sFit(ids) && CellIds(edges) == U64s(ids)
  {
    var w, e, s, n := SideIds(edges[WEST]), SideIds(edges[EAST]), SideIds(edges[SOUTH]), SideIds(edges[NORTH]);
    SideIdsFit(edges[WEST]);
    SideIdsFit(edges[EAST]);
    SideIdsFit(edges[SOUTH]);
    SideIdsFit(edges[NORTH]);
    U64sAppend(w, e);
    U64sAppend(w + e, s);
    U64sAppend(w + e + s, n);
  }

  /** Lists cut at their own lengths come back apart. */
  lemma SplitFour(w: seq<nat>, e: seq<nat>, s: seq<nat>, n: seq<nat>, r: (seq<nat>, seq<nat>, seq<nat>, seq<nat>))
    requires |r.0| == |w| && |r.1| == |e| && |r.2| == |s| && |r.3| == |n|
    requires r.0 + r.1 + r.2 + r.3 == w + e + s + n
    ensures r == (w, e, s, n)
  {
    var ids := w + e + s + n;
    var cut := r.0 + r.1 + r.2 + r.3;
    var i, j, k := |w|, |w| + |e|, |w| + |e| + |s|;
    assert cut[..i] == r.0 && ids[..i] == w;
    assert cut[i..j] == r.1 && ids[i..j] == e;
    assert cut[j..k] == r.2 && ids[j..k] == s;
    assert cut[k..] == r.3 && ids[k..] == n;
  }

  /** A header followed by the four packed lists whose lengths it gives
      decodes to exactly those fields. */
  lemma DecodeHeaderAndIds(index: nat, b: Bounds, altitude: F64, lumType: nat,
                           w: seq<nat>, e: seq<nat>, s: seq<nat>, n: seq<nat>)
    requires index < U64_LIMIT && lumType < U8_LIMIT
    requires |w| < U8_LIMIT && |e| < U8_LIMIT && |s| < U8_LIMIT && |n| < U8_LIMIT
    requires U64sFit(w + e + s + n)
    ensures DecodeElement(CellHeader(index, b, altitude, lumType, [|w|, |e|, |s|, |n|]) + U64s(w + e + s + n))
         == Ok(HydroElement(index, b, altitude, lumType, w, e, s, n))
  {
    var ids := w + e + s + n;
    var tail := U64s(ids);
    var rec := CellHeader(index, b, altitude, lumType, [|w|, |e|, |s|, |n|]) + tail;
    CellHeaderFields(index, b, altitude, lumType, [|w|, |e|, |s|, |n|], tail);
    assert IdCount(rec) == |ids|;
    U64ListOfU64s(ids);
    SplitFour(w, e, s, n, SplitIds(rec));
  }

  /** What `_generate_cell_record` writes, `HydroElement` reads: the
      one-based index, the bounds, altitude and type, and the ids of the
      west, east, south and north sides as left, right, bottom and top. */
  lemma DecodeCellRecord(index: nat, cell: CellId, edges: seq<set<nat>>, place: CellId -> Bounds,
                         altitude: F64, lumType: int)
    requires |edges| == 4 && CellFits(index, edges, lumType)
    ensures DecodeElement(GenerateCellRecord(index, cell, edges, place, altitude, lumType).value)
         == Ok(HydroElement(index + 1, place(cell), altitude, lumType,
                            SideIds(edges[WEST]), SideIds(edges[EAST]), SideIds(edges[SOUTH]), SideIds(edges[NORTH])))
  {
    var w, e, s, n := SideIds(edges[WEST]), SideIds(edges[EAST]), SideIds(edges[SOUTH]), SideIds(edges[NORTH]);
    CellIdsPacked(edges);
    DecodeHeaderAndIds(index + 1, place(cell), altitude, lumType, w, e, s, n);
  }

  /** What `_generate_edge_record` writes, `HydroSide` reads: the one-based
      index, the key's direction, the bounds, the two one-based cells (0
      for none), the altitude and the type. */
  lemma DecodeEdgeRecord(index: nat, edgeData: seq<Byte>, grids: Adjacent, place: KeyFields -> Bounds,
                         altitude: F64, lumType: int)
    requires GenerateEdgeRecord(index, edgeData, grids, place, altitude, lumType).Ok?
    ensures var f := UnpackEdgeKey(edgeData);
      DecodeSide(GenerateEdgeRecord(index, edgeData, grids, place, altitude, lumType).value)
      == Ok(HydroSide(index + 1, f.direction, place(f), GridRef(grids.first), GridRef(grids.second), altitude, lumType))
  {
    PowValues();
    var f := UnpackEdgeKey(edgeData);
    var pre := BE(index + 1, 8) + BE(f.direction, 1);
    BEOne(f.direction);
    var box := BoundsBytes(place(f));
    var ga, gb := BE(GridRef(grids.first), 8), BE(GridRef(grids.second), 8);
    var t := I32BE(lumType);
    var rec := GenerateEdgeRecord(index, edgeData, grids, place, altitude, lumType).value;
    assert rec == pre + box + (ga + gb + altitude + t);
    assert rec[..8] == BE(index + 1, 8);
    assert rec[8] == f.direction;
    BoundsAtBytes(pre, place(f), ga + gb + altitude + t);
    assert rec[41..49] == ga && rec[49..57] == gb;
    assert rec[57..65] == altitude && rec[65..69] == t;
    FromBEOfBE(index + 1, 8);
    FromBEOfBE(GridRef(grids.first), 8);
    FromBEOfBE(GridRef(grids.second), 8);
    I32RoundTrip(lumType);
  }

  // ---------------------------------------------------------------------
  // The framing loop of `HydroElements.__init__` and `HydroSides.__init__`

  /** From the front of the stream: a u32 length (struct.error when fewer
      than 4 bytes remain), then up to that many bytes (a read past the end
      stops at the end), decoded, and the cursor moved by 4 + length. */
  function ReadRecords<T>(buf: seq<Byte>, decode: seq<Byte> -> Result<T, ReadError>): Result<seq<T>, ReadError>
    decreases |buf|
  {
    if buf == [] then Ok([])
    else if |buf| < 4 then Err(UnpackError)
    else
      var n := FromBE(buf[..4]);
      var end := if 4 + n <= |buf| then 4 + n else |buf|;
      var d := decode(buf[4..end]);
      if d.Err? then Err(d.error)
      else
        var rest := ReadRecords(buf[end..], decode);
        if rest.Err? then rest else Ok([d.value] + rest.value)
  }

  function Prefixed<T>(done: seq<T>, r: Result<seq<T>, ReadError>): Result<seq<T>, ReadError>
  {
    if r.Err? then r else Ok(done + r.value)
  }

  lemma PrefixedPrefixed<T>(a: seq<T>, b: seq<T>, r: Result<seq<T>, ReadError>)
    ensures Prefixed(a, Prefixed(b, r)) == Prefixed(a + b, r)
  {
    if r.Ok? {
      assert a + (b + r.value) == a + b + r.value;
    }
  }

  /** One turn of the loop at `cursor`, with at least 4 bytes left. */
  lemma ReadStep<T>(buf: seq<Byte>, decode: seq<Byte> -> Result<T, ReadError>, cursor: nat)
    requires cursor + 4 <= |buf|
    ensures var n := FromBE(buf[cursor..cursor + 4]);
      var next := Min(cursor + 4 + n, |buf|);
      var d := decode(buf[cursor + 4..next]);
      ReadRecords(buf[cursor..], decode)
      == if d.Err? then Err(d.error) else Prefixed([d.value], ReadRecords(buf[next..], decode))
  {
    var rest := buf[cursor..];
    var n := FromBE(buf[cursor..cursor + 4]);
    assert rest[..4] == buf[cursor..cursor + 4];
    var next := Min(cursor + 4 + n, |buf|);
    assert rest[4..next - cursor] == buf[cursor + 4..next];
    assert rest[next - cursor..] == buf[next..];
  }

  /** The loop: records read so far, then the rest of the stream. */
  method ReadStream<T>(buf: seq<Byte>, decode: seq<Byte> -> Result<T, ReadError>) returns (r: Result<seq<T>, ReadError>)
    ensures r == ReadRecords(buf, decode)
  {
    var records: seq<T> := [];
    var cursor := 0;
    assert buf[Min(0, |buf|)..] == buf;
    assert Prefixed(records, ReadRecords(buf, decode)) == ReadRecords(buf, decode) by {
      var r0 := ReadRecords(buf, decode);
      if r0.Ok? { assert records + r0.value == r0.value; }
    }
    while cursor < |buf|
      invariant ReadRecords(buf, decode) == Prefixed(records, ReadRecords(buf[Min(cursor, |buf|)..], decode))
      decreases |buf| - cursor
    {
      if |buf| - cursor < 4 {
        return Err(UnpackError);
      }
      var n := FromBE(buf[cursor..cursor + 4]);
      var data := buf[cursor + 4..Min(cursor + 4 + n, |buf|)];
      ghost var next := Min(cursor + 4 + n, |buf|);
      ReadStep(buf, decode, cursor);
      cursor := cursor + 4 + n;
      var d := decode(data);
      if d.Err? {
        return Err(d.error);
      }
      PrefixedPrefixed(records, [d.value], ReadRecords(buf[next..], decode));
      records := records + [d.value];
    }
    assert buf[Min(cursor, |buf|)..] == [];
    assert records + [] == records;
    r := Ok(records);
  }

  /** A whole file: the memory map of an empty file fails before any
      record is read; any other file is read by the framing loop. */
  function ReadFile<T>(buf: seq<Byte>, decode: seq<Byte> -> Result<T, ReadError>): Result<seq<T>, ReadError>
  {
    if buf == [] then Err(EmptyFile) else ReadRecords(buf, decode)
  }

  /** `HydroElements(file_path).es`, the file's bytes given as `buf`. */
  method ReadElements(buf: seq<Byte>) returns (r: Result<seq<HydroElement>, ReadError>)
    ensures buf == [] ==> r == Err(EmptyFile)
    ensures buf != [] ==> r == ReadRecords(buf, DecodeElement)
  {
    if |buf| == 0 {
      return Err(EmptyFile);
    }
    r := ReadStream(buf, DecodeElement);
  }

  /** `HydroSides(file_path).ss`, the file's bytes given as `buf`. */
  method ReadSides(buf: seq<Byte>) returns (r: Result<seq<HydroSide>, ReadError>)
    ensures buf == [] ==> r == Err(EmptyFile)
    ensures buf != [] ==> r == ReadRecords(buf, DecodeSide)
  {
    if |buf| == 0 {
      return Err(EmptyFile);
    }
    r := ReadStream(buf, DecodeSide);
  }

  // ---------------------------------------------------------------------
  // Reading what the writer wrote

  predicate AllOk(rs: seq<Result<seq<Byte>, RecordError>>)
  {
    forall i :: 0 <= i < |rs| ==> rs[i].Ok? && |rs[i].value| < U32_LIMIT
  }

  /** `struct.pack('!I', len(x)) + x` */
  function Frame(x: seq<Byte>): (f: seq<Byte>)
    requires |x| < U32_LIMIT
    ensures |f| == 4 + |x|
  {
    PowValues();
    BE(|x|, 4) + x
  }

  /** The stream of the records `rs`, each behind its u32 length. */
  function Stream(rs: seq<Result<seq<Byte>, RecordError>>): seq<Byte>
    requires AllOk(rs)
  {
    if rs == [] then [] else Stream(rs[..|rs| - 1]) + Frame(rs[|rs| - 1].value)
  }

  /** The concatenated frames of the writer are the stream of its records. */
  lemma {:induction false} ConcatFramed(fs: seq<Result<seq<Byte>, RecordError>>, rs: seq<Result<seq<Byte>, RecordError>>)
    requires |fs| == |rs| && (forall i :: 0 <= i < |fs| ==> fs[i] == Framed(rs[i]))
    requires Concat(fs).Ok?
    ensures AllOk(rs) && Concat(fs).value == Stream(rs)
  {
    if fs != [] {
      var k := |fs| - 1;
      ConcatFramed(fs[..k], rs[..k]);
      assert rs[..k] == rs[..|rs| - 1];
    }
  }

  lemma AllOkCons(r: Result<seq<Byte>, RecordError>, rs: seq<Result<seq<Byte>, RecordError>>)
    requires AllOk([r] + rs)
    ensures r.Ok? && |r.value| < U32_LIMIT && AllOk(rs)
  {
    assert ([r] + rs)[0] == r;
    forall i | 0 <= i < |rs| ensures rs[i].Ok? && |rs[i].value| < U32_LIMIT {
      assert rs[i] == ([r] + rs)[i + 1];
    }
  }

  lemma AllOkPrefix(rs: seq<Result<seq<Byte>, RecordError>>, m: nat)
    requires AllOk(rs) && m <= |rs|
    ensures AllOk(rs[..m])
  {
  }

  lemma {:induction false} StreamCons(r: Result<seq<Byte>, RecordError>, rs: seq<Result<seq<Byte>, RecordError>>)
    requires AllOk([r] + rs)
    ensures r.Ok? && |r.value| < U32_LIMIT && AllOk(rs)
    ensures Stream([r] + rs) == Frame(r.value) + Stream(rs)
  {
    AllOkCons(r, rs);
    var all := [r] + rs;
    if rs == [] {
      assert all[..0] == [];
      assert all[0] == r;
    } else {
      var k := |rs| - 1;
      assert all[..|all| - 1] == [r] + rs[..k];
      assert all[|all| - 1] == rs[k];
      AllOkPrefix(all, |all| - 1);
      StreamCons(r, rs[..k]);
    }
  }

  /** Decoding every record of `rs` in order, stopping at the first failure. */
  function DecodeAll<T>(rs: seq<Result<seq<Byte>, RecordError>>, decode: seq<Byte> -> Result<T, ReadError>)
    : Result<seq<T>, ReadError>
    requires AllOk(rs)
  {
    if rs == [] then Ok([])
    else
      var d := decode(rs[0].value);
      if d.Err? then Err(d.error)
      else
        var rest := DecodeAll(rs[1..], decode);
        if rest.Err? then rest else Ok([d.value] + rest.value)
  }

  /** The framing loop reads the writer's stream back record by record. */
  lemma {:induction false} ReadStreamOf<T>(rs: seq<Result<seq<Byte>, RecordError>>, decode: seq<Byte> -> Result<T, ReadError>)
    requires AllOk(rs)
    ensures ReadRecords(Stream(rs), decode) == DecodeAll(rs, decode)
  {
    PowValues();
    if rs != [] {
      var x := rs[0].value;
      assert rs == [rs[0]] + rs[1..];
      StreamCons(rs[0], rs[1..]);
      var buf := Stream(rs);
      var rest := Stream(rs[1..]);
      assert buf == BE(|x|, 4) + x + rest;
      assert buf[..4] == BE(|x|, 4);
      FromBEOfBE(|x|, 4);
      assert buf[4..4 + |x|] == x;
      assert buf[4 + |x|..] == rest;
      ReadStreamOf(rs[1..], decode);
    }
  }

  lemma {:induction false} DecodeAllOk<T>(rs: seq<Result<seq<Byte>, RecordError>>, decode: seq<Byte> -> Result<T, ReadError>,
                                          ts: seq<T>)
    requires AllOk(rs) && |ts| == |rs|
    requires forall i :: 0 <= i < |rs| ==> decode(rs[i].value) == Ok(ts[i])
    ensures DecodeAll(rs, decode) == Ok(ts)
  {
    if rs != [] {
      DecodeAllOk(rs[1..], decode, ts[1..]);
      assert ts == [ts[0]] + ts[1..];
    }
  }

  /** The element `HydroElement` reads for cell `i` of the written stream. */
  function WrittenElement(i: nat, c: CellId, edges: seq<set<nat>>, env: CellSampler): HydroElement
    requires |edges| == 4
  {
    HydroElement(i + 1, env.place(c), AltitudeOf(env.dem(c)), TypeOf(env.lum(c)),
                 SideIds(edges[WEST]), SideIds(edges[EAST]), SideIds(edges[SOUTH]), SideIds(edges[NORTH]))
  }

  lemma WrittenCellRead(i: nat, c: CellId, edges: seq<set<nat>>, env: CellSampler)
    requires |edges| == 4
    requires GenerateCellRecord(i, c, edges, env.place, AltitudeOf(env.dem(c)), TypeOf(env.lum(c))).Ok?
    ensures DecodeElement(GenerateCellRecord(i, c, edges, env.place, AltitudeOf(env.dem(c)), TypeOf(env.lum(c))).value)
         == Ok(WrittenElement(i, c, edges, env))
  {
    DecodeCellRecord(i, c, edges, env.place, AltitudeOf(env.dem(c)), TypeOf(env.lum(c)));
  }

  /** The unframed cell records of the written stream. */
  function CellRecords(cells: seq<CellId>, edges: seq<seq<set<nat>>>, env: CellSampler): (rs: seq<Result<seq<Byte>, RecordError>>)
    requires Table(edges, |cells|)
    ensures |rs| == |cells|
  {
    seq(|cells|, i requires 0 <= i < |cells| =>
      GenerateCellRecord(i, cells[i], edges[i], env.place, AltitudeOf(env.dem(cells[i])), TypeOf(env.lum(cells[i]))))
  }

  function WrittenElements(cells: seq<CellId>, edges: seq<seq<set<nat>>>, env: CellSampler): seq<HydroElement>
    requires Table(edges, |cells|)
  {
    seq(|cells|, i requires 0 <= i < |cells| => WrittenElement(i, cells[i], edges[i], env))
  }

  lemma CellRecordsDecode(cells: seq<CellId>, edges: seq<seq<set<nat>>>, env: CellSampler)
    requires Table(edges, |cells|) && AllOk(CellRecords(cells, edges, env))
    ensures DecodeAll(CellRecords(cells, edges, env), DecodeElement) == Ok(WrittenElements(cells, edges, env))
  {
    var rs := CellRecords(cells, edges, env);
    var es := WrittenElements(cells, edges, env);
    forall i | 0 <= i < |rs| ensures DecodeElement(rs[i].value) == Ok(es[i]) {
      var c := cells[i];
      var r := GenerateCellRecord(i, c, edges[i], env.place, AltitudeOf(env.dem(c)), TypeOf(env.lum(c)));
      assert rs[i] == r && r.Ok?;
      WrittenCellRead(i, c, edges[i], env);
    }
    DecodeAllOk(rs, DecodeElement, es);
  }

  /** Decoding the output of `_record_cell_topology` gives one element per
      cell, in cache order, each as the writer described it. The file of
      no cells is empty, and reading it fails. */
  lemma ReadCellTopology(cells: seq<CellId>, edges: seq<seq<set<nat>>>, env: CellSampler)
    requires Table(edges, |cells|)
    requires Concat(CellFrames(cells, edges, 0, env)).Ok?
    ensures ReadRecords(Concat(CellFrames(cells, edges, 0, env)).value, DecodeElement)
         == Ok(WrittenElements(cells, edges, env))
    ensures ReadFile(Concat(CellFrames(cells, edges, 0, env)).value, DecodeElement)
         == if cells == [] then Err(EmptyFile) else Ok(WrittenElements(cells, edges, env))
  {
    var fs := CellFrames(cells, edges, 0, env);
    var rs := CellRecords(cells, edges, env);
    ConcatFramed(fs, rs);
    ReadStreamOf(rs, DecodeElement);
    CellRecordsDecode(cells, edges, env);
  }

  /** The side `HydroSide` reads for edge `i` of the written stream. */
  function WrittenSide(i: nat, key: seq<Byte>, grids: Adjacent, env: EdgeSampler): HydroSide
    requires |key| == 25
  {
    var f := UnpackEdgeKey(key);
    HydroSide(i + 1, f.direction, env.place(f), GridRef(grids.first), GridRef(grids.second),
              AltitudeOf(env.dem(f)), TypeOf(env.lum(f)))
  }

  lemma WrittenEdgeRead(i: nat, key: seq<Byte>, grids: Adjacent, env: EdgeSampler)
    requires |key| == 25
    requires var f := UnpackEdgeKey(key);
      GenerateEdgeRecord(i, key, grids, env.place, AltitudeOf(env.dem(f)), TypeOf(env.lum(f))).Ok?
    ensures var f := UnpackEdgeKey(key);
      DecodeSide(GenerateEdgeRecord(i, key, grids, env.place, AltitudeOf(env.dem(f)), TypeOf(env.lum(f))).value)
      == Ok(WrittenSide(i, key, grids, env))
  {
    var f := UnpackEdgeKey(key);
    DecodeEdgeRecord(i, key, grids, env.place, AltitudeOf(env.dem(f)), TypeOf(env.lum(f)));
  }

  predicate KeysSized(keys: seq<seq<Byte>>)
  {
    forall i :: 0 <= i < |keys| ==> |keys[i]| == 25
  }

  /** The unframed edge records of the written stream. */
  function EdgeRecords(keys: seq<seq<Byte>>, adj: seq<Adjacent>, env: EdgeSampler): (rs: seq<Result<seq<Byte>, RecordError>>)
    requires |keys| == |adj| && KeysSized(keys)
    ensures |rs| == |keys|
  {
    seq(|keys|, i requires 0 <= i < |keys| =>
      var f := UnpackEdgeKey(keys[i]);
      GenerateEdgeRecord(i, keys[i], adj[i], env.place, AltitudeOf(env.dem(f)), TypeOf(env.lum(f))))
  }

  function WrittenSides(keys: seq<seq<Byte>>, adj: seq<Adjacent>, env: EdgeSampler): seq<HydroSide>
    requires |keys| == |adj| && KeysSized(keys)
  {
    seq(|keys|, i requires 0 <= i < |keys| => WrittenSide(i, keys[i], adj[i], env))
  }

  lemma EdgeRecordsDecode(keys: seq<seq<Byte>>, adj: seq<Adjacent>, env: EdgeSampler)
    requires |keys| == |adj| && KeysSized(keys) && AllOk(EdgeRecords(keys, adj, env))
    ensures DecodeAll(EdgeRecords(keys, adj, env), DecodeSide) == Ok(WrittenSides(keys, adj, env))
  {
    var rs := EdgeRecords(keys, adj, env);
    var ss := WrittenSides(keys, adj, env);
    forall i | 0 <= i < |rs| ensures DecodeSide(rs[i].value) == Ok(ss[i]) {
      var f := UnpackEdgeKey(keys[i]);
      var r := GenerateEdgeRecord(i, keys[i], adj[i], env.place, AltitudeOf(env.dem(f)), TypeOf(env.lum(f)));
      assert rs[i] == r && r.Ok?;
      WrittenEdgeRead(i, keys[i], adj[i], env);
    }
    DecodeAllOk(rs, DecodeSide, ss);
  }

  /** Decoding the output of `_record_edge_topology` gives one side per
      edge, in cache order, each as the writer described it. The file of
      no edges is empty, and reading it fails. */
  lemma ReadEdgeTopology(keys: seq<seq<Byte>>, adj: seq<Adjacent>, env: EdgeSampler)
    requires |keys| == |adj| && KeysSized(keys)
    requires Concat(EdgeFrames(keys, adj, 0, env)).Ok?
    ensures ReadRecords(Concat(EdgeFrames(keys, adj, 0, env)).value, DecodeSide) == Ok(WrittenSides(keys, adj, env))
    ensures ReadFile(Concat(EdgeFrames(keys, adj, 0, env)).value, DecodeSide)
         == if keys == [] then Err(EmptyFile) else Ok(WrittenSides(keys, adj, env))
  {
    var fs := EdgeFrames(keys, adj, 0, env);
    var rs := EdgeRecords(keys, adj, env);
    assert forall i :: 0 <= i < |fs| ==> fs[i] == Framed(rs[i]);
    ConcatFramed(fs, rs);
    ReadStreamOf(rs, DecodeSide);
    EdgeRecordsDecode(keys, adj, env);
  }

  // ---------------------------------------------------------------------
  // The `ne` and `ns` rows

  /** A row entry: an integer, a double as decoded, the float midpoint
      `(a + b) / 2.0`, or the float difference `hi - lo`. */
  datatype Value = Int(i: int) | Real(bits: F64) | Mid(a: F64, b: F64) | Span(hi: F64, lo: F64)

  function Ints(xs: seq<nat>): seq<Value>
  {
    seq(|xs|, i requires 0 <= i < |xs| => Int(xs[i]))
  }

  /** `center`: the midpoints of the bounds and the altitude. */
  function Center(b: Bounds, altitude: F64): seq<Value>
  {
    [Mid(b.minX, b.maxX), Mid(b.minY, b.maxY), Real(altitude)]
  }

  /** `HydroElement.ne` */
  function Ne(e: HydroElement): seq<Value>
  {
    [Int(e.index), Int(|e.left|), Int(|e.right|), Int(|e.bottom|), Int(|e.top|)]
    + Ints(e.left) + Ints(e.right) + Ints(e.bottom) + Ints(e.top)
    + Center(e.bounds, e.altitude) + [Int(e.typ)]
  }

  /** The `ne` row: the index and four counts, then each list at the offset
      the counts before it give, then the centre and the type; its length
      is 5 + the number of ids + 4. */
  lemma NeLayout(e: HydroElement)
    ensures var r := Ne(e);
      var nl, nr, nb, nt := |e.left|, |e.right|, |e.bottom|, |e.top|;
      && |r| == 5 + nl + nr + nb + nt + 4
      && r[..5] == [Int(e.index), Int(nl), Int(nr), Int(nb), Int(nt)]
      && (forall j :: 0 <= j < nl ==> r[5 + j] == Int(e.left[j]))
      && (forall j :: 0 <= j < nr ==> r[5 + nl + j] == Int(e.right[j]))
      && (forall j :: 0 <= j < nb ==> r[5 + nl + nr + j] == Int(e.bottom[j]))
      && (forall j :: 0 <= j < nt ==> r[5 + nl + nr + nb + j] == Int(e.top[j]))
      && r[|r| - 4..] == Center(e.bounds, e.altitude) + [Int(e.typ)]
  {
  }

  /** `HydroSide.length`: the x extent for direction 1, else the y extent. */
  function SideLength(s: HydroSide): Value
  {
    if s.direction == 1 then Span(s.bounds.maxX, s.bounds.minX) else Span(s.bounds.maxY, s.bounds.minY)
  }

  /** `HydroSide.ns` */
  function Ns(s: HydroSide): seq<Value>
  {
    var (left, right, bottom, top) := if s.direction == 0 then (s.gridA, s.gridB, 0, 0) else (0, 0, s.gridB, s.gridA);
    [Int(s.index), Int(if s.direction == 1 then 1 else 2), Int(left), Int(right), Int(bottom), Int(top),
     SideLength(s)] + Center(s.bounds, s.altitude) + [Int(s.typ)]
  }

  /** The `ns` row of a side of the written stream: 11 entries; direction
      1 (horizontal) stays 1 and puts the second cell at the bottom and the
      first at the top; direction 0 (vertical) becomes 2 and puts the
      first cell left and the second right. */
  lemma NsOfWrittenSide(i: nat, key: seq<Byte>, grids: Adjacent, env: EdgeSampler)
    requires |key| == 25 && UnpackEdgeKey(key).direction <= 1
    ensures var r := Ns(WrittenSide(i, key, grids, env));
      var f := UnpackEdgeKey(key);
      var a, b := GridRef(grids.first), GridRef(grids.second);
      && |r| == 11 && r[0] == Int(i + 1)
      && (f.direction == 1 ==> r[1..6] == [Int(1), Int(0), Int(0), Int(b), Int(a)])
      && (f.direction == 0 ==> r[1..6] == [Int(2), Int(a), Int(b), Int(0), Int(0)])
      && r[10] == Int(TypeOf(env.lum(f)))
  {
  }

  // ---------------------------------------------------------------------
  // `export_ne` and `export_ns`

  /** `str(v)`: integers in decimal, floats by Python's float repr `show`. */
  function Render(v: Value, show: Value -> string): string
  {
    if v.Int? then IntText(v.i) else show(v)
  }

  function RowText(row: seq<Value>, show: Value -> string): string
  {
    JoinSpace(seq(|row|, j requires 0 <= j < |row| => Render(row[j], show)))
  }

  /** `export_ne`: one line per element, in stream order; the file is given
      as its lines, each written with a trailing newline. */
  method ExportNe(es: seq<HydroElement>, show: Value -> string) returns (lines: seq<string>)
    ensures |lines| == |es|
    ensures forall i :: 0 <= i < |es| ==> lines[i] == RowText(Ne(es[i]), show)
  {
    lines := [];
    for i := 0 to |es|
      invariant |lines| == i
      invariant forall k :: 0 <= k < i ==> lines[k] == RowText(Ne(es[k]), show)
    {
      lines := lines + [RowText(Ne(es[i]), show)];
    }
  }

  /** `export_ns`: one line per side, in stream order. */
  method ExportNs(ss: seq<HydroSide>, show: Value -> string) returns (lines: seq<string>)
    ensures |lines| == |ss|
    ensures forall i :: 0 <= i < |ss| ==> lines[i] == RowText(Ns(ss[i]), show)
  {
    lines := [];
    for i := 0 to |ss|
      invariant |lines| == i
      invariant forall k :: 0 <= k < i ==> lines[k] == RowText(Ns(ss[k]), show)
    {
      lines := lines + [RowText(Ns(ss[i]), show)];
    }
  }

  /** A rendered row splits back into one token per entry when the float
      renderer yields single tokens. */
  lemma RowTokens(row: seq<Value>, show: Value -> string)
    requires forall j :: 0 <= j < |row| && !row[j].Int? ==> IsToken(show(row[j]))
    ensures Tokens(RowText(row, show)) == seq(|row|, j requires 0 <= j < |row| => Render(row[j], show))
  {
    var ts := seq(|row|, j requires 0 <= j < |row| => Render(row[j], show));
    forall j | 0 <= j < |row| ensures IsToken(ts[j]) {
      if row[j].Int? { IntTextToken(row[j].i); }
    }
    TokensOfJoin(ts);
  }
}
