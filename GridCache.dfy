/** The meta-grid cell cache of server/templates/grid/hooks.py: side codes
    and their toggle, the adjacency predicates on child local ids, the
    `_get_cell_from_uv` bounds check, and the `GridCache` class over the
    sorted, concatenated 9-byte keys with its per-cell neighbour and edge
    tables. */
module GridCache {
  import opened Bytes
  import opened Geometry
  import opened Wrappers
  import opened CellKey
  import opened Fractions

  // ---------------------------------------------------------------------
  // Side codes

  const EDGE_CODE_INVALID: int := -1
  const NORTH: int := 0
  const WEST: int := 1
  const SOUTH: int := 2
  const EAST: int := 3

  /** A member of the `EdgeCode` enumeration. */
  predicate IsEdgeCode(code: int)
  {
    NORTH <= code <= EAST
  }

  const TOGGLE_EDGE_CODE_MAP: map<int, int> := map[NORTH := SOUTH, WEST := EAST, SOUTH := NORTH, EAST := WEST]

  /** `_get_toggle_edge_code`: the opposite side, or EDGE_CODE_INVALID for
      anything that is not a side code. */
  function ToggleCode(code: int): (r: int)
    ensures IsEdgeCode(code) ==> r == (code + 2) % 4
    ensures !IsEdgeCode(code) ==> r == EDGE_CODE_INVALID
  {
    if code in TOGGLE_EDGE_CODE_MAP then TOGGLE_EDGE_CODE_MAP[code] else EDGE_CODE_INVALID
  }

  /** The toggle is an involution without fixed points on the side codes. */
  lemma ToggleInvolution(code: int)
    requires IsEdgeCode(code)
    ensures IsEdgeCode(ToggleCode(code))
    ensures ToggleCode(ToggleCode(code)) == code
    ensures ToggleCode(code) != code
  {
  }

  // ---------------------------------------------------------------------
  // Adjacency predicates

  /** `ADJACENT_CHECK_NORTH`, `_WEST`, `_SOUTH` and `_EAST`: is child `local`
      of a neighbour on side `side` on the side shared with the cell? */
  function AdjacentCheck(side: int, local: int, sw: int, sh: int): bool
    requires IsEdgeCode(side) && sw != 0
  {
    if side == NORTH then local < sw
    else if side == EAST then local % sw == 0
    else if side == WEST then local % sw == sw - 1
    else local >= sw * (sh - 1)
  }

  lemma RowOfLocal(local: nat, sw: nat, sh: nat)
    requires sw > 0 && sh > 0 && local < sw * sh
    ensures local / sw < sh
    ensures local >= sw * (sh - 1) <==> local / sw == sh - 1
  {
    var q := local / sw;
    RowBound(local, sw, sh);
    assert q * sw <= local < (q + 1) * sw;
    if q >= sh - 1 {
      MulLeBoth(sh - 1, q, sw, sw);
    } else {
      MulLeBoth(q + 1, sh - 1, sw, sw);
    }
  }

  /** The predicates pick exactly the children row or column that touches the
      shared side: a north neighbour's bottom row (local row 0), a south
      neighbour's top row (local row sh - 1), a west neighbour's right column
      (local column sw - 1) and an east neighbour's left column (column 0). */
  lemma AdjacentSelectsSide(side: int, local: nat, sw: nat, sh: nat)
    requires IsEdgeCode(side) && sw > 0 && sh > 0 && local < sw * sh
    ensures side == NORTH ==> (AdjacentCheck(side, local, sw, sh) <==> local / sw == 0)
    ensures side == SOUTH ==> (AdjacentCheck(side, local, sw, sh) <==> local / sw == sh - 1)
    ensures side == WEST ==> (AdjacentCheck(side, local, sw, sh) <==> local % sw == sw - 1)
    ensures side == EAST ==> (AdjacentCheck(side, local, sw, sh) <==> local % sw == 0)
  {
    RowOfLocal(local, sw, sh);
  }

  // ---------------------------------------------------------------------
  // Cells by column and row

  /** `_get_cell_from_uv`: the cell at column u and row v of a level, or None
      when the level or the position is outside the grid. */
  function CellFromUv(level: int, cols: int, rows: int, u: int, v: int, numLevels: nat): (r: Option<CellId>)
    ensures r.Some? <==> 0 <= level < numLevels && 0 <= u < cols && 0 <= v < rows
    ensures r.Some? ==>
      r.value.level == level && r.value.gid < cols * rows &&
      r.value.gid % cols == u && r.value.gid / cols == v
  {
    if level >= numLevels || level < 0 then None
    else if u < 0 || u >= cols || v < 0 || v >= rows then None
    else
      ColRowOfGid(u, v, cols);
      RowMajorBound(u, v, cols, rows);
      Some(CellId(level, v * cols + u))
  }

  /** The column and row offsets of the neighbour `_find_cell_neighbours`
      looks at on each side: north is v + 1, west u - 1, south v - 1, east u + 1. */
  function SideOffset(side: int): (int, int)
    requires IsEdgeCode(side)
  {
    if side == NORTH then (0, 1)
    else if side == WEST then (-1, 0)
    else if side == SOUTH then (0, -1)
    else (1, 0)
  }

  // ---------------------------------------------------------------------
  // Per-cell tables of four sets, indexed by cell position and side code

  /** `[[set() for _ in range(4)] for _ in range(n)]` */
  function EmptyTable(n: nat): (t: seq<seq<set<nat>>>)
    ensures Table(t, n)
    ensures forall i, d :: 0 <= i < n && 0 <= d < 4 ==> t[i][d] == {}
  {
    seq(n, _ => seq(4, _ => {}))
  }

  predicate Table(t: seq<seq<set<nat>>>, n: nat)
  {
    |t| == n && forall i :: 0 <= i < n ==> |t[i]| == 4
  }

  /** `t[i][d].update(s)`, functionally. */
  function AddSet(t: seq<seq<set<nat>>>, i: nat, d: nat, s: set<nat>): (r: seq<seq<set<nat>>>)
    requires Table(t, |t|) && i < |t| && d < 4
    ensures Table(r, |t|)
    ensures forall k, e :: 0 <= k < |t| && 0 <= e < 4 ==>
      r[k][e] == if k == i && e == d then t[k][e] + s else t[k][e]
  {
    t[i := t[i][d := t[i][d] + s]]
  }

  /** A table where every recorded pair has its mirror: j is a side-d
      neighbour of i exactly when i is a toggled-side neighbour of j. */
  predicate Symmetric(t: seq<seq<set<nat>>>)
    requires Table(t, |t|)
  {
    forall i, d, j :: 0 <= i < |t| && 0 <= d < 4 && j in t[i][d] ==>
      j < |t| && i in t[j][ToggleCode(d)]
  }

  /** The two additions `_update_cell_neighbour` makes. */
  function AddPair(t: seq<seq<set<nat>>>, i: nat, d: int, j: nat): (r: seq<seq<set<nat>>>)
    requires Table(t, |t|) && i < |t| && j < |t| && IsEdgeCode(d)
    ensures Table(r, |t|)
  {
    AddSet(AddSet(t, i, d, {j}), j, ToggleCode(d), {i})
  }

  lemma AddPairSymmetric(t: seq<seq<set<nat>>>, i: nat, d: int, j: nat)
    requires Table(t, |t|) && i < |t| && j < |t| && IsEdgeCode(d)
    requires Symmetric(t)
    ensures Symmetric(AddPair(t, i, d, j))
  {
    var r := AddPair(t, i, d, j);
    forall k, e, x | 0 <= k < |r| && 0 <= e < 4 && x in r[k][e]
      ensures x < |r| && k in r[x][ToggleCode(e)]
    {
      ToggleInvolution(e);
      if x in t[k][e] {
      } else if k == i && e == d && x == j {
      } else {
        assert k == j && e == ToggleCode(d) && x == i;
        ToggleInvolution(d);
      }
    }
  }

  /** In a symmetric table the mirror property holds in both directions. */
  lemma SymmetricIff(t: seq<seq<set<nat>>>, i: nat, d: int, j: nat)
    requires Table(t, |t|) && Symmetric(t)
    requires i < |t| && j < |t| && IsEdgeCode(d)
    ensures j in t[i][d] <==> i in t[j][ToggleCode(d)]
  {
    ToggleInvolution(d);
    if i in t[j][ToggleCode(d)] {
      assert j in t[i][ToggleCode(ToggleCode(d))];
    }
  }

  /** The empty table is trivially symmetric. */
  lemma EmptySymmetric(n: nat)
    ensures Symmetric(EmptyTable(n))
  {
  }

  // ---------------------------------------------------------------------
  // Python slicing

  /** `s[start:end]` for a non-negative start within s: a negative end counts
      from the back, and the end is clamped to the length. */
  function PySlice<T>(s: seq<T>, start: nat, end: int): (r: seq<T>)
    requires start <= |s|
    ensures end >= start ==> r == s[start .. if end <= |s| then end else |s|]
    ensures 0 <= end <= start ==> r == []
  {
    var e := if end < 0 then (if end + |s| < 0 then 0 else end + |s|)
             else if end > |s| then |s| else end;
    if start >= e then [] else s[start..e]
  }

  function Min(a: int, b: int): int
  {
    if a <= b then a else b
  }

  datatype CacheError = IndexOutOfBounds | NotMultipleOfNine

  // ---------------------------------------------------------------------
  // The cache

  class GridCache {
    /** The concatenated keys. */
    const data: seq<Byte>
    /** `_len` */
    const size: nat
    /** `array`: the keys decoded, in data order. */
    const cells: seq<CellId>
    /** `map`: cell to position. */
    const index: map<CellId, nat>
    var fractCoords: seq<FractCoords>
    var edges: seq<seq<set<nat>>>
    var neighbours: seq<seq<set<nat>>>

    ghost predicate Valid()
      reads this
    {
      && |data| % 9 == 0
      && size == |data| / 9
      && cells == CacheCells(data)
      && index == IndexMap(cells)
      && (forall c :: c in index ==> index[c] < size)
      && Table(edges, size)
      && Table(neighbours, size)
      && Symmetric(neighbours)
    }

    /** `GridCache.__init__` on data whose length is a multiple of 9. */
    constructor (data: seq<Byte>)
      requires |data| % 9 == 0
      ensures Valid()
      ensures this.data == data && size == |data| / 9
      ensures fractCoords == [] && edges == EmptyTable(size) && neighbours == EmptyTable(size)
    {
      this.data := data;
      size := |data| / 9;
      cells := CacheCells(data);
      index := IndexMap(CacheCells(data));
      fractCoords := [];
      edges := EmptyTable(|data| / 9);
      neighbours := EmptyTable(|data| / 9);
      new;
      EmptySymmetric(|data| / 9);
      forall c | c in index ensures index[c] < size {
        IndexMapLast(cells, c);
      }
    }

    /** Every mapped position is a position of the array holding that cell. */
    lemma IndexInRange(c: CellId)
      requires Valid() && c in index
      ensures index[c] < size && cells[index[c]] == c
    {
      IndexMapLast(cells, c);
    }

    /** `has_cell(level, global_id)` */
    function HasCell(c: CellId): (b: bool)
      reads this
      ensures Valid() ==> (b <==> c in cells)
    {
      c in index
    }

    /** `slice_cells(start_index, length)`: the keys of cells start_index up
        to start_index + length, clamped to the end; IndexError outside
        [0, len]. */
    function SliceCells(start: int, length: int): (r: Result<seq<Byte>, CacheError>)
      reads this
      requires Valid()
      ensures r.Err? <==> start < 0 || start > size
      ensures r.Ok? && length >= 0 ==>
        |r.value| == 9 * (Min(start + length, size) - start) &&
        CacheCells(r.value) == cells[start .. Min(start + length, size)]
    {
      if start < 0 || start > size then Err(IndexOutOfBounds)
      else
        var from := start * 9;
        var to := Min(from + length * 9, size * 9);
        var s := PySlice(data, from, to);
        if length >= 0 then
          SliceChunks(start, Min(start + length, size));
          Ok(s)
        else Ok(s)
    }

    lemma SliceChunks(s: nat, e: nat)
      requires Valid() && s <= e <= size
      ensures CacheCells(data[9 * s .. 9 * e]) == cells[s..e]
    {
      var part := data[9 * s .. 9 * e];
      forall i | 0 <= i < e - s ensures CacheCells(part)[i] == cells[s + i] {
        assert part[9 * i .. 9 * i + 9] == data[9 * (s + i) .. 9 * (s + i) + 9];
      }
    }

    /** `slice_edges(start_index, length)`: the edge sets of the same cells. */
    function SliceEdges(start: int, length: int): (r: Result<seq<seq<set<nat>>>, CacheError>)
      reads this
      requires Valid()
      ensures r.Err? <==> start < 0 || start > size
      ensures r.Ok? && length >= 0 ==>
        |r.value| == Min(start + length, size) - start &&
        forall i :: 0 <= i < |r.value| ==> r.value[i] == edges[start + i]
    {
      if start < 0 || start > size then Err(IndexOutOfBounds)
      else Ok(PySlice(edges, start, Min(start + length, size)))
    }
  }

  /** The constructor's ValueError for data that is not a whole number of keys. */
  method Open(data: seq<Byte>) returns (r: Result<GridCache, CacheError>)
    ensures r.Err? <==> |data| % 9 != 0
    ensures r.Ok? ==>
      fresh(r.value) && r.value.Valid() && r.value.data == data &&
      r.value.edges == EmptyTable(|data| / 9) && r.value.neighbours == EmptyTable(|data| / 9) &&
      r.value.fractCoords == []
  {
    if |data| % 9 != 0 {
      return Err(NotMultipleOfNine);
    }
    var g := new GridCache(data);
    return Ok(g);
  }

  /** `_update_cell_neighbour`: record b as a side-`code` neighbour of a and a
      as a toggled-side neighbour of b; nothing for EDGE_CODE_INVALID. Both
      cells must be in the cache (the source raises KeyError otherwise). */
  method UpdateCellNeighbour(g: GridCache, a: CellId, b: CellId, code: int)
    requires g.Valid() && a in g.index && b in g.index
    requires code == EDGE_CODE_INVALID || IsEdgeCode(code)
    modifies g
    ensures g.Valid()
    ensures g.edges == old(g.edges) && g.fractCoords == old(g.fractCoords)
    ensures code == EDGE_CODE_INVALID ==> g.neighbours == old(g.neighbours)
    ensures code != EDGE_CODE_INVALID ==>
      g.neighbours == AddPair(old(g.neighbours), g.index[a], code, g.index[b])
  {
    if code == EDGE_CODE_INVALID {
      return;
    }
    g.IndexInRange(a);
    g.IndexInRange(b);
    var i := g.index[a];
    var j := g.index[b];
    AddPairSymmetric(g.neighbours, i, code, j);
    var oppo := ToggleCode(code);
    g.neighbours := AddSet(g.neighbours, i, code, {j});
    g.neighbours := AddSet(g.neighbours, j, oppo, {i});
  }
}
