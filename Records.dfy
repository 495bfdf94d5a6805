/** The binary topology records of server/templates/grid/hooks.py: one
    length-prefixed cell record per cell (`_generate_cell_record`) and one
    length-prefixed 69-byte edge record per edge (`_generate_edge_record`),
    written in batches of 10000 whose outputs are concatenated in batch
    order. Doubles are kept as their eight packed bytes; the float geometry
    that produces them and the raster sampling are parameters. */
module Records {
  import opened Bytes
  import opened Wrappers
  import opened Geometry
  import opened Fractions
  import opened CellKey
  import opened GridCache
  import opened Edges

  /** A double as `struct.pack('!d', ...)` writes it. */
  type F64 = s: seq<Byte> | |s| == 8 witness [0, 0, 0, 0, 0, 0, 0, 0]

  /** -9999.0, the altitude written when there is no elevation value. */
  const NO_ALTITUDE: F64 := [0xC0, 0xC3, 0x87, 0x80, 0x00, 0x00, 0x00, 0x00]
  /** The land-use type written when there is no land-use value. */
  const NO_TYPE: int := 0
  /** '!QdddddBBBBB' */
  const CELL_HEADER_SIZE: nat := 53
  /** '!QBddddQQdi' */
  const EDGE_RECORD_SIZE: nat := 69
  const BATCH_SIZE: nat := 10000

  /** `min_x, min_y, max_x, max_y` */
  datatype Bounds = Bounds(minX: F64, minY: F64, maxX: F64, maxY: F64)

  /** `struct.error`, `ZeroDivisionError`, and the `UnboundLocalError` of an
      edge whose direction is neither 0 nor 1. */
  datatype RecordError = PackError | DivisionByZero | UnboundDirection

  function BoundsBytes(b: Bounds): (r: seq<Byte>)
    ensures |r| == 32
  {
    b.minX + b.minY + b.maxX + b.maxY
  }

  /** `altitude = float(val)` when the sampler gives a value, else -9999.0. */
  function AltitudeOf(v: Option<F64>): F64
  {
    if v.Some? then v.value else NO_ALTITUDE
  }

  /** `lum_type = int(val)` when the sampler gives a value, else 0. */
  function TypeOf(v: Option<int>): int
  {
    if v.Some? then v.value else NO_TYPE
  }

  // ---------------------------------------------------------------------
  // `sorted(edges[code])`, one-based

  predicate Increasing(xs: seq<nat>)
  {
    forall i, j :: 0 <= i < j < |xs| ==> xs[i] < xs[j]
  }

  lemma {:induction false} MinExists(s: set<nat>)
    requires s != {}
    ensures exists m :: m in s && forall x :: x in s ==> m <= x
    decreases |s|
  {
    var y :| y in s;
    if s - {y} != {} {
      MinExists(s - {y});
      var m :| m in s - {y} && forall x :: x in s - {y} ==> m <= x;
      MinOfInsert(s, y, m);
    } else {
      MinOfSingleton(s, y);
    }
  }

  lemma MinOfInsert(s: set<nat>, y: nat, m: nat)
    requires y in s && m in s - {y} && forall x :: x in s - {y} ==> m <= x
    ensures exists least :: least in s && forall x :: x in s ==> least <= x
  {
    var least := if y < m then y else m;
    forall x | x in s ensures least <= x {
      if x != y {
        assert x in s - {y};
      }
    }
  }

  lemma MinOfSingleton(s: set<nat>, y: nat)
    requires y in s && s - {y} == {}
    ensures exists least :: least in s && forall x :: x in s ==> least <= x
  {
    forall x | x in s ensures y <= x {
      assert x !in s - {y};
    }
  }

  /** `min(s)` */
  function SetMin(s: set<nat>): (m: nat)
    requires s != {}
    ensures m in s && forall x :: x in s ==> m <= x
  {
    MinExists(s);
    var m :| m in s && forall x :: x in s ==> m <= x;
    m
  }

  lemma IncreasingCons(m: nat, rest: seq<nat>)
    requires Increasing(rest) && forall x :: x in rest ==> m < x
    ensures Increasing([m] + rest)
  {
    var r := [m] + rest;
    forall i, j | 0 <= i < j < |r| ensures r[i] < r[j] {
      assert r[j] == rest[j - 1] && rest[j - 1] in rest;
      if i > 0 {
        assert r[i] == rest[i - 1];
      }
    }
  }

  /** `sorted(s)` */
  function SortedIds(s: set<nat>): (r: seq<nat>)
    ensures forall x :: x in r <==> x in s
    ensures |r| == |s|
    ensures Increasing(r)
    decreases |s|
  {
    if s == {} then []
    else
      var m := SetMin(s);
      var rest := SortedIds(s - {m});
      assert forall x :: x in rest ==> m < x;
      IncreasingCons(m, rest);
      [m] + rest
  }

  /** `[edge_index + 1 for edge_index in sorted(s)]` */
  function SideIds(s: set<nat>): (r: seq<nat>)
    ensures |r| == |s|
    ensures forall i :: 0 <= i < |r| ==> r[i] == SortedIds(s)[i] + 1
  {
    var xs := SortedIds(s);
    seq(|xs|, i requires 0 <= i < |xs| => xs[i] + 1)
  }

  predicate U64sFit(xs: seq<nat>)
  {
    forall i :: 0 <= i < |xs| ==> xs[i] < U64_LIMIT
  }

  /** Each value as '!Q', in order. */
  function U64s(xs: seq<nat>): (r: seq<Byte>)
    requires U64sFit(xs)
    ensures |r| == 8 * |xs|
  {
    PowValues();
    if xs == [] then [] else U64s(xs[..|xs| - 1]) + BE(xs[|xs| - 1], 8)
  }

  /** One-based ids of a set all of whose ids + 1 fit in 8 bytes. */
  lemma SideIdsFit(s: set<nat>)
    requires forall x :: x in s ==> x + 1 < U64_LIMIT
    ensures U64sFit(SideIds(s))
  {
    var xs := SortedIds(s);
    forall i | 0 <= i < |xs| ensures xs[i] + 1 < U64_LIMIT {
      assert xs[i] in xs;
    }
  }

  // ---------------------------------------------------------------------
  // `_generate_cell_record`

  /** What `struct.pack` accepts: the one-based index and ids in '!Q', the
      type and the four counts in '!B'. */
  predicate CellFits(index: nat, edges: seq<set<nat>>, lumType: int)
    requires |edges| == 4
  {
    && index + 1 < U64_LIMIT && 0 <= lumType < U8_LIMIT
    && (forall d :: 0 <= d < 4 ==> |edges[d]| < U8_LIMIT)
    && (forall d, x :: 0 <= d < 4 && x in edges[d] ==> x + 1 < U64_LIMIT)
  }

  function EdgeCount(edges: seq<set<nat>>): nat
    requires |edges| == 4
  {
    |edges[WEST]| + |edges[EAST]| + |edges[SOUTH]| + |edges[NORTH]|
  }

  /** The 53-byte header: the one-based index as '!Q', the bounds and
      altitude as '!d', then the type and the four counts as '!B'. */
  function CellHeader(index: nat, b: Bounds, altitude: F64, lumType: nat, counts: seq<nat>): (h: seq<Byte>)
    requires index < U64_LIMIT && lumType < U8_LIMIT
    requires |counts| == 4 && forall d :: 0 <= d < 4 ==> counts[d] < U8_LIMIT
    ensures |h| == CELL_HEADER_SIZE
  {
    PowValues();
    BE(index, 8) + BoundsBytes(b) + altitude
    + [lumType as Byte, counts[0] as Byte, counts[1] as Byte, counts[2] as Byte, counts[3] as Byte]
  }

  /** The west, east, south and north ids, one-based and ascending, as '!Q'. */
  function CellIds(edges: seq<set<nat>>): (r: seq<Byte>)
    requires |edges| == 4 && forall d, x :: 0 <= d < 4 && x in edges[d] ==> x + 1 < U64_LIMIT
    ensures |r| == 8 * EdgeCount(edges)
  {
    SideIdsFit(edges[WEST]);
    SideIdsFit(edges[EAST]);
    SideIdsFit(edges[SOUTH]);
    SideIdsFit(edges[NORTH]);
    U64s(SideIds(edges[WEST])) + U64s(SideIds(edges[EAST]))
    + U64s(SideIds(edges[SOUTH])) + U64s(SideIds(edges[NORTH]))
  }

  /** `_generate_cell_record(index, key, edges, ...)` for the unpacked key
      `cell`; `place` is `_get_cell_coordinates`. The record is the header
      (with the west, east, south and north counts) and the ids of those
      four sides; anything `struct.pack` refuses is a struct.error. */
  function GenerateCellRecord(index: nat, cell: CellId, edges: seq<set<nat>>, place: CellId -> Bounds,
                              altitude: F64, lumType: int): (r: Result<seq<Byte>, RecordError>)
    requires |edges| == 4
    ensures r.Ok? <==> CellFits(index, edges, lumType)
    ensures r.Err? ==> r.error == PackError
    ensures r.Ok? ==> |r.value| == CELL_HEADER_SIZE + 8 * EdgeCount(edges)
  {
    if !CellFits(index, edges, lumType) then Err(PackError)
    else
      Ok(CellHeader(index + 1, place(cell), altitude, lumType,
                    [|edges[WEST]|, |edges[EAST]|, |edges[SOUTH]|, |edges[NORTH]|])
         + CellIds(edges))
  }

  // ---------------------------------------------------------------------
  // `_generate_edge_record`

  /** `edge_grids[k] + 1 if edge_grids[k] is not None else 0` */
  function GridRef(c: Option<nat>): nat
  {
    if c.Some? then c.value + 1 else 0
  }

  predicate EdgeFits(index: nat, grids: Adjacent, lumType: int)
  {
    && index + 1 < U64_LIMIT
    && GridRef(grids.first) < U64_LIMIT && GridRef(grids.second) < U64_LIMIT
    && -0x8000_0000 <= lumType < 0x8000_0000
  }

  /** The divisions of the coordinate computation: all three denominators. */
  predicate NoZeroDen(f: KeyFields)
  {
    f.min.den != 0 && f.max.den != 0 && f.shared.den != 0
  }

  /** `_generate_edge_record(index, edge_data, edge_grids, ...)`; `place` is
      the float placement of the unpacked key in the bounding box. The record
      is the one-based index, the direction byte, the bounds, the two
      one-based cells (0 for none), the altitude and the type as '!i'. */
  function GenerateEdgeRecord(index: nat, edgeData: seq<Byte>, grids: Adjacent, place: KeyFields -> Bounds,
                              altitude: F64, lumType: int): (r: Result<seq<Byte>, RecordError>)
    ensures |edgeData| != 25 ==> r == Err(PackError)
    ensures |edgeData| == 25 ==>
      var f := UnpackEdgeKey(edgeData);
      && (r == Err(DivisionByZero) <==> (f.direction == 0 || f.direction == 1) && !NoZeroDen(f))
      && (r == Err(UnboundDirection) <==> f.direction > 1)
      && (r.Ok? <==> (f.direction == 0 || f.direction == 1) && NoZeroDen(f) && EdgeFits(index, grids, lumType))
    ensures r.Ok? ==> |r.value| == EDGE_RECORD_SIZE
  {
    if |edgeData| != 25 then Err(PackError)
    else
      var f := UnpackEdgeKey(edgeData);
      if f.direction > 1 then Err(UnboundDirection)
      else if !NoZeroDen(f) then Err(DivisionByZero)
      else if !EdgeFits(index, grids, lumType) then Err(PackError)
      else
        PowValues();
        Ok(BE(index + 1, 8) + BE(f.direction, 1) + BoundsBytes(place(f))
           + BE(GridRef(grids.first), 8) + BE(GridRef(grids.second), 8)
           + altitude + I32BE(lumType))
  }

  // ---------------------------------------------------------------------
  // Framing and concatenation

  /** `struct.pack('!I', len(record)) + record` */
  function Framed(r: Result<seq<Byte>, RecordError>): (f: Result<seq<Byte>, RecordError>)
    ensures f.Ok? <==> r.Ok? && |r.value| < U32_LIMIT
    ensures f.Ok? ==> |f.value| == 4 + |r.value| && f.value[4..] == r.value
  {
    if r.Err? then r
    else if |r.value| >= U32_LIMIT then Err(PackError)
    else
      PowValues();
      Ok(BE(|r.value|, 4) + r.value)
  }

  /** Appending the outputs in order; the first failure is the one raised. */
  function Concat(rs: seq<Result<seq<Byte>, RecordError>>): Result<seq<Byte>, RecordError>
  {
    if rs == [] then Ok([])
    else
      var init := Concat(rs[..|rs| - 1]);
      if init.Err? then init
      else if rs[|rs| - 1].Err? then rs[|rs| - 1]
      else Ok(init.value + rs[|rs| - 1].value)
  }

  function Then(a: Result<seq<Byte>, RecordError>, b: Result<seq<Byte>, RecordError>): Result<seq<Byte>, RecordError>
  {
    if a.Err? then a else if b.Err? then b else Ok(a.value + b.value)
  }

  lemma ThenAssoc(a: Result<seq<Byte>, RecordError>, b: Result<seq<Byte>, RecordError>, c: Result<seq<Byte>, RecordError>)
    ensures Then(Then(a, b), c) == Then(a, Then(b, c))
  {
    if a.Ok? && b.Ok? && c.Ok? {
      assert (a.value + b.value) + c.value == a.value + (b.value + c.value);
    }
  }

  /** Concatenating two runs of outputs is concatenating their results. */
  lemma {:induction false} ConcatAppend(xs: seq<Result<seq<Byte>, RecordError>>, ys: seq<Result<seq<Byte>, RecordError>>)
    ensures Concat(xs + ys) == Then(Concat(xs), Concat(ys))
    decreases |ys|
  {
    if ys == [] {
      assert xs + ys == xs;
      if Concat(xs).Ok? {
        assert Concat(xs).value + [] == Concat(xs).value;
      }
    } else {
      var init, last := ys[..|ys| - 1], ys[|ys| - 1];
      assert (xs + ys)[..|xs + ys| - 1] == xs + init;
      assert (xs + ys)[|xs + ys| - 1] == last;
      ConcatAppend(xs, init);
      assert Concat(xs + ys) == Then(Concat(xs + init), last);
      assert Concat(ys) == Then(Concat(init), last);
      ThenAssoc(Concat(xs), Concat(init), last);
    }
  }

  lemma ConcatSnoc(xs: seq<Result<seq<Byte>, RecordError>>, y: Result<seq<Byte>, RecordError>)
    ensures Concat(xs + [y]) == Then(Concat(xs), y)
  {
    assert (xs + [y])[..|xs|] == xs;
  }

  /** One step of a worker's loop: the stream so far gains item i, and a
      failing item is the failure of the whole stream. */
  lemma ConcatStep(fs: seq<Result<seq<Byte>, RecordError>>, i: nat, records: seq<Byte>)
    requires i < |fs| && Concat(fs[..i]) == Ok(records)
    ensures Concat(fs[..i + 1]) == Then(Ok(records), fs[i])
    ensures fs[i].Err? ==> Concat(fs) == fs[i]
  {
    assert fs[..i + 1] == fs[..i] + [fs[i]];
    ConcatSnoc(fs[..i], fs[i]);
    ConcatAppend(fs[..i + 1], fs[i + 1..]);
    assert fs == fs[..i + 1] + fs[i + 1..];
  }

  /** One batch: the output so far followed by the batch's output. */
  lemma BatchStep(fs: seq<Result<seq<Byte>, RecordError>>, i: nat, end: nat)
    requires i <= end <= |fs|
    ensures Then(Concat(fs[..i]), Concat(fs[i..end])) == Concat(fs[..end])
  {
    ConcatAppend(fs[..i], fs[i..end]);
    assert fs[..i] + fs[i..end] == fs[..end];
  }

  // ---------------------------------------------------------------------
  // `_batch_cell_records_worker` and `_record_cell_topology`

  /** Where a cell lies (`_get_cell_coordinates`), and what the elevation and
      the land-use rasters give at its centre (None without a raster or a
      value). */
  datatype CellSampler = CellSampler(place: CellId -> Bounds, dem: CellId -> Option<F64>, lum: CellId -> Option<int>)

  /** The framed record of cell `c` with edge sets `edges` at position `index`. */
  function CellFrame(index: nat, c: CellId, edges: seq<set<nat>>, env: CellSampler): Result<seq<Byte>, RecordError>
    requires |edges| == 4
  {
    Framed(GenerateCellRecord(index, c, edges, env.place, AltitudeOf(env.dem(c)), TypeOf(env.lum(c))))
  }

  /** The framed records of cells `cells[i]` at positions `offset + i`. */
  function CellFrames(cells: seq<CellId>, edges: seq<seq<set<nat>>>, offset: nat, env: CellSampler): (fs: seq<Result<seq<Byte>, RecordError>>)
    requires Table(edges, |cells|)
    ensures |fs| == |cells|
  {
    seq(|cells|, i requires 0 <= i < |cells| => CellFrame(offset + i, cells[i], edges[i], env))
  }

  /** A cell record always fits its u32 length prefix. */
  lemma CellFrameOk(index: nat, c: CellId, edges: seq<set<nat>>, env: CellSampler)
    requires |edges| == 4
    ensures CellFrame(index, c, edges, env).Ok? <==> CellFits(index, edges, TypeOf(env.lum(c)))
  {
  }

  /** `_batch_cell_records_worker((cell_data, cell_edges, offset), ...)` */
  method BatchCellRecords(cellData: seq<Byte>, cellEdges: seq<seq<set<nat>>>, offset: nat, env: CellSampler)
    returns (r: Result<seq<Byte>, RecordError>)
    requires |cellData| == 9 * |cellEdges| && Table(cellEdges, |cellEdges|)
    ensures r == Concat(CellFrames(CacheCells(cellData), cellEdges, offset, env))
  {
    var cells := CacheCells(cellData);
    ghost var frames := CellFrames(cells, cellEdges, offset, env);
    var count := |cellData| / 9;
    var records := [];
    for i := 0 to count
      invariant Concat(frames[..i]) == Ok(records)
    {
      var key := cellData[9 * i .. 9 * i + 9];
      var c := DecodeCellKey(key);
      assert c == cells[i];
      var edges := cellEdges[i];
      var altitude := AltitudeOf(env.dem(c));
      var lumType := TypeOf(env.lum(c));
      var record := GenerateCellRecord(offset + i, c, edges, env.place, altitude, lumType);
      var framed := Framed(record);
      assert framed == frames[i];
      ConcatStep(frames, i, records);
      if framed.Err? {
        return framed;
      }
      records := records + framed.value;
    }
    assert frames[..count] == frames;
    r := Ok(records);
  }

  /** A batch's frames are the whole stream's frames at the batch's positions. */
  lemma CellFramesSlice(cells: seq<CellId>, edges: seq<seq<set<nat>>>, env: CellSampler, a: nat, b: nat)
    requires Table(edges, |cells|) && a <= b <= |cells|
    ensures Table(edges[a..b], b - a)
    ensures CellFrames(cells[a..b], edges[a..b], a, env) == CellFrames(cells, edges, 0, env)[a..b]
  {
  }

  /** The batch of `_record_cell_topology` at offset i: the cells and edge
      sets sliced from the cache, through the worker. */
  method CellBatch(g: GridCache, env: CellSampler, i: nat) returns (chunk: Result<seq<Byte>, RecordError>)
    requires g.Valid() && i < g.size
    ensures chunk == Concat(CellFrames(g.cells, g.edges, 0, env)[i..Min(i + BATCH_SIZE, g.size)])
  {
    var end := Min(i + BATCH_SIZE, g.size);
    var cellData := g.SliceCells(i, BATCH_SIZE);
    var cellEdges := g.SliceEdges(i, BATCH_SIZE);
    assert CacheCells(cellData.value) == g.cells[i..end];
    assert cellEdges.value == g.edges[i..end];
    CellFramesSlice(g.cells, g.edges, env, i, end);
    chunk := BatchCellRecords(cellData.value, cellEdges.value, i, env);
  }

  /** `_record_cell_topology`: batches of 10000 cells at offsets 0, 10000, ...,
      their outputs concatenated in batch order. The result is one
      sequential pass over all cells. */
  method RecordCellTopology(g: GridCache, env: CellSampler) returns (r: Result<seq<Byte>, RecordError>)
    requires g.Valid()
    ensures r == Concat(CellFrames(g.cells, g.edges, 0, env))
  {
    ghost var frames := CellFrames(g.cells, g.edges, 0, env);
    var out: Result<seq<Byte>, RecordError> := Ok([]);
    var i := 0;
    while i < g.size
      invariant out == Concat(frames[..Min(i, g.size)])
      decreases g.size - i
    {
      var chunk := CellBatch(g, env, i);
      BatchStep(frames, i, Min(i + BATCH_SIZE, g.size));
      out := Then(out, chunk);
      i := i + BATCH_SIZE;
    }
    assert frames[..g.size] == frames;
    r := out;
  }

  // ---------------------------------------------------------------------
  // `_slice_edge_info`, `_batch_edge_records_worker` and `_record_edge_topology`

  /** Where an edge lies, and what the rasters give at its centre. */
  datatype EdgeSampler = EdgeSampler(place: KeyFields -> Bounds, dem: KeyFields -> Option<F64>, lum: KeyFields -> Option<int>)

  /** The worker's step for one edge: unpack the key (struct.error on a
      wrong length), sample, and frame the record. */
  function EdgeFrame(index: nat, key: seq<Byte>, grids: Adjacent, env: EdgeSampler): Result<seq<Byte>, RecordError>
  {
    if |key| != 25 then Err(PackError)
    else
      var f := UnpackEdgeKey(key);
      Framed(GenerateEdgeRecord(index, key, grids, env.place, AltitudeOf(env.dem(f)), TypeOf(env.lum(f))))
  }

  function EdgeFrames(keys: seq<seq<Byte>>, adj: seq<Adjacent>, offset: nat, env: EdgeSampler): (fs: seq<Result<seq<Byte>, RecordError>>)
    requires |keys| == |adj|
    ensures |fs| == |keys|
  {
    seq(|keys|, i requires 0 <= i < |keys| => EdgeFrame(offset + i, keys[i], adj[i], env))
  }

  lemma EdgeFramesSlice(keys: seq<seq<Byte>>, adj: seq<Adjacent>, env: EdgeSampler, a: nat, b: nat)
    requires |keys| == |adj| && a <= b <= |keys|
    ensures EdgeFrames(keys[a..b], adj[a..b], a, env) == EdgeFrames(keys, adj, 0, env)[a..b]
  {
  }

  /** `_slice_edge_info(start, length, ...)`: IndexError unless start is a
      position of the cache, else the two lists cut at the same place. */
  function SliceEdgeInfo(start: int, length: nat, keys: seq<seq<Byte>>, adj: seq<Adjacent>)
    : (r: Result<(seq<seq<Byte>>, seq<Adjacent>), CacheError>)
    requires |keys| == |adj|
    ensures r.Err? <==> start < 0 || start >= |keys|
    ensures r.Ok? ==> r.value == (keys[start..Min(start + length, |keys|)], adj[start..Min(start + length, |keys|)])
  {
    if start < 0 || start >= |keys| then Err(IndexOutOfBounds)
    else Ok((keys[start..Min(start + length, |keys|)], adj[start..Min(start + length, |keys|)]))
  }

  /** `_batch_edge_records_worker((edge_data, edge_cells, offset), ...)` */
  method BatchEdgeRecords(edgeData: seq<seq<Byte>>, edgeCells: seq<Adjacent>, offset: nat, env: EdgeSampler)
    returns (r: Result<seq<Byte>, RecordError>)
    requires |edgeData| == |edgeCells|
    ensures r == Concat(EdgeFrames(edgeData, edgeCells, offset, env))
  {
    ghost var frames := EdgeFrames(edgeData, edgeCells, offset, env);
    var records := [];
    for i := 0 to |edgeData|
      invariant Concat(frames[..i]) == Ok(records)
    {
      var framed := EdgeFrame(offset + i, edgeData[i], edgeCells[i], env);
      assert framed == frames[i];
      ConcatStep(frames, i, records);
      if framed.Err? {
        return framed;
      }
      records := records + framed.value;
    }
    assert frames[..|edgeData|] == frames;
    r := Ok(records);
  }

  /** `_record_edge_topology`: batches of 10000 edges concatenated in batch
      order, which is one sequential pass over all edges. */
  method RecordEdgeTopology(keys: seq<seq<Byte>>, adj: seq<Adjacent>, env: EdgeSampler) returns (r: Result<seq<Byte>, RecordError>)
    requires |keys| == |adj|
    ensures r == Concat(EdgeFrames(keys, adj, 0, env))
  {
    ghost var frames := EdgeFrames(keys, adj, 0, env);
    var out: Result<seq<Byte>, RecordError> := Ok([]);
    var i := 0;
    while i < |keys|
      invariant out == Concat(frames[..Min(i, |keys|)])
      decreases |keys| - i
    {
      var end := Min(i + BATCH_SIZE, |keys|);
      var slice := SliceEdgeInfo(i, BATCH_SIZE, keys, adj);
      var (edgeData, edgeCells) := slice.value;
      EdgeFramesSlice(keys, adj, env, i, end);
      var chunk := BatchEdgeRecords(edgeData, edgeCells, i, env);
      BatchStep(frames, i, end);
      out := Then(out, chunk);
      i := i + BATCH_SIZE;
    }
    assert frames[..|keys|] == frames;
    r := out;
  }
}
