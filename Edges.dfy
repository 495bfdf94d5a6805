/** Edge deduplication and emission of server/templates/grid/hooks.py:
    the 25-byte edge key of `_get_edge_index`, the edge index (the cache of
    keys, the key-to-index dictionary and the adjacent-cell list the
    assembly passes around together), the edges one side of a cell gets from
    `_calc_horizontal_edges` / `_calc_vertical_edges`, and the pass of
    `_calc_cell_edges` over every cell. Fraction comparisons, done on floats
    in the source, are exact cross-multiplications here. */
module Edges {
  import opened Bytes
  import opened Wrappers
  import opened Geometry
  import opened CellKey
  import opened Fractions
  import opened GridCache

  // ---------------------------------------------------------------------
  // The edge key

  /** A fraction that the '!I' fields of the key can hold and that can be
      divided by. */
  predicate FracOk(f: Frac)
  {
    FracFits(f) && 0 < f.den
  }

  /** A fraction that the '!I' fields of the key can hold; the shared
      fraction is packed without being divided by. */
  predicate FracFits(f: Frac)
  {
    f.num < U32_LIMIT && f.den < U32_LIMIT
  }

  /** `float(a[0]) / float(a[1]) > float(b[0]) / float(b[1])`, exactly. */
  predicate FracGreater(a: Frac, b: Frac)
  {
    a.num * b.den > b.num * a.den
  }

  /** The varying range in canonical order: min and max swapped when min is
      the greater. */
  function Canonical(lo: Frac, hi: Frac): (r: (Frac, Frac))
    ensures !FracGreater(r.0, r.1)
    ensures r == (lo, hi) || r == (hi, lo)
  {
    if FracGreater(lo, hi) then (hi, lo) else (lo, hi)
  }

  /** The two ends of an edge give the same range in either order, unless
      they are different fractions of the same value. */
  lemma CanonicalSymmetric(a: Frac, b: Frac)
    requires a == b || !FracEq(a, b)
    ensures Canonical(a, b) == Canonical(b, a)
  {
  }

  /** The decoded fields of an edge key. */
  datatype KeyFields = KeyFields(direction: nat, min: Frac, max: Frac, shared: Frac)

  predicate FieldsFit(f: KeyFields)
  {
    && f.direction < U8_LIMIT
    && f.min.num < U32_LIMIT && f.min.den < U32_LIMIT
    && f.max.num < U32_LIMIT && f.max.den < U32_LIMIT
    && f.shared.num < U32_LIMIT && f.shared.den < U32_LIMIT
  }

  /** `struct.pack('!BIIIIII', direction, min_num, min_den, max_num, max_den,
      shared_num, shared_den)` */
  function PackEdgeKey(f: KeyFields): (k: seq<Byte>)
    requires FieldsFit(f)
    ensures |k| == 25
  {
    PowValues();
    BE(f.direction, 1)
      + BE(f.min.num, 4) + BE(f.min.den, 4)
      + BE(f.max.num, 4) + BE(f.max.den, 4)
      + BE(f.shared.num, 4) + BE(f.shared.den, 4)
  }

  /** `struct.unpack('!BIIIIII', key)` */
  function UnpackEdgeKey(k: seq<Byte>): (f: KeyFields)
    requires |k| == 25
    ensures FieldsFit(f)
  {
    PowValues();
    KeyFields(FromBE(k[0..1]),
      Frac(FromBE(k[1..5]), FromBE(k[5..9])),
      Frac(FromBE(k[9..13]), FromBE(k[13..17])),
      Frac(FromBE(k[17..21]), FromBE(k[21..25])))
  }

  lemma UnpackOfPack(f: KeyFields)
    requires FieldsFit(f)
    ensures UnpackEdgeKey(PackEdgeKey(f)) == f
  {
    PowValues();
    var k := PackEdgeKey(f);
    assert k[0..1] == BE(f.direction, 1);
    assert k[1..5] == BE(f.min.num, 4) && k[5..9] == BE(f.min.den, 4);
    assert k[9..13] == BE(f.max.num, 4) && k[13..17] == BE(f.max.den, 4);
    assert k[17..21] == BE(f.shared.num, 4) && k[21..25] == BE(f.shared.den, 4);
    FromBEOfBE(f.direction, 1);
    FromBEOfBE(f.min.num, 4);
    FromBEOfBE(f.min.den, 4);
    FromBEOfBE(f.max.num, 4);
    FromBEOfBE(f.max.den, 4);
    FromBEOfBE(f.shared.num, 4);
    FromBEOfBE(f.shared.den, 4);
  }

  /** Two edges share a key exactly when direction and the three fractions
      agree, so the dictionary merges exactly the repeated edges. */
  lemma PackInjective(f: KeyFields, g: KeyFields)
    requires FieldsFit(f) && FieldsFit(g)
    ensures PackEdgeKey(f) == PackEdgeKey(g) <==> f == g
  {
    UnpackOfPack(f);
    UnpackOfPack(g);
  }

  /** The key `_get_edge_index` builds: `1 if direction else 0`, then the
      canonical range and the shared fraction. */
  function EdgeKey(direction: int, lo: Frac, hi: Frac, shared: Frac): (k: seq<Byte>)
    requires FracOk(lo) && FracOk(hi) && FracFits(shared)
    ensures |k| == 25
  {
    var (mn, mx) := Canonical(lo, hi);
    PackEdgeKey(KeyFields(if direction != 0 then 1 else 0, mn, mx, shared))
  }

  /** The key holds the direction bit, the range in canonical order and the
      shared fraction. */
  lemma EdgeKeyFields(direction: int, lo: Frac, hi: Frac, shared: Frac)
    requires FracOk(lo) && FracOk(hi) && FracFits(shared)
    ensures var f := UnpackEdgeKey(EdgeKey(direction, lo, hi, shared));
      && f.direction == (if direction != 0 then 1 else 0)
      && (f.min, f.max) == Canonical(lo, hi)
      && !FracGreater(f.min, f.max)
      && f.shared == shared
  {
    var (mn, mx) := Canonical(lo, hi);
    UnpackOfPack(KeyFields(if direction != 0 then 1 else 0, mn, mx, shared));
  }

  // ---------------------------------------------------------------------
  // The edge index

  /** An `edge_adj_cell_indices` entry: the two cell positions, either of
      which may be None for a boundary edge. */
  datatype Adjacent = Adjacent(first: Option<nat>, second: Option<nat>)

  /** `[cell_key_b, cell_key_a]` when the side code is NORTH or WEST, else
      `[cell_key_a, cell_key_b]`: whatever the code, the entry holds exactly
      the cell and its neighbour. */
  function Oriented(code: int, a: nat, b: Option<nat>): (p: Adjacent)
    ensures {p.first, p.second} == {Some(a), b}
  {
    if code == NORTH || code == WEST then Adjacent(b, Some(a)) else Adjacent(Some(a), b)
  }

  /** The three lists as values: `edge_index_cache`, `edge_index_dict` and
      `edge_adj_cell_indices`. */
  datatype EdgeState = EdgeState(keys: seq<seq<Byte>>, dict: map<seq<Byte>, nat>, adj: seq<Adjacent>)

  /** The dictionary and the key cache are inverse to each other, and there
      is one adjacency entry per edge. */
  predicate StateOk(st: EdgeState)
  {
    && |st.adj| == |st.keys|
    && (forall k :: k in st.dict ==> st.dict[k] < |st.keys| && st.keys[st.dict[k]] == k)
    && (forall i :: 0 <= i < |st.keys| ==> st.keys[i] in st.dict && st.dict[st.keys[i]] == i)
  }

  /** The lookup-or-append step of `_get_edge_index`, given the key and the
      adjacency entry a new edge would get. */
  function Lookup(st: EdgeState, key: seq<Byte>, pair: Adjacent): (r: (EdgeState, nat))
  {
    if key in st.dict then (st, st.dict[key])
    else (EdgeState(st.keys + [key], st.dict[key := |st.keys|], st.adj + [pair]), |st.keys|)
  }

  /** An existing key returns its index and nothing grows; a new key gets the
      next index and each list grows by exactly that key and entry. The
      result always indexes the key, and the state stays consistent. */
  lemma LookupSpec(st: EdgeState, key: seq<Byte>, pair: Adjacent)
    requires StateOk(st)
    ensures var (st1, i) := Lookup(st, key, pair);
      && StateOk(st1)
      && i < |st1.keys| && st1.keys[i] == key && st1.dict[key] == i
      && (key in st.dict ==> st1 == st && i == st.dict[key])
      && (key !in st.dict ==>
            i == |st.keys| && st1.keys == st.keys + [key] && st1.adj == st.adj + [pair] &&
            st1.dict == st.dict[key := i])
  {
    if key !in st.dict {
      var (st1, i) := Lookup(st, key, pair);
      forall k | k in st1.dict ensures st1.dict[k] < |st1.keys| && st1.keys[st1.dict[k]] == k {
        if k != key {
          assert k in st.dict;
        }
      }
      forall j | 0 <= j < |st1.keys| ensures st1.keys[j] in st1.dict && st1.dict[st1.keys[j]] == j {
        if j < |st.keys| {
          assert st1.keys[j] == st.keys[j] != key;
        }
      }
    }
  }

  /** The empty lists of the assembly. */
  lemma EmptyStateOk()
    ensures StateOk(EdgeState([], map[], []))
  {
  }

  datatype EdgeError = BadDirection | BadRange | ZeroDivision | StructError

  /** The lists the assembly keeps beside the grid cache, updated in place
      by `_get_edge_index`. */
  class EdgeIndex {
    var keys: seq<seq<Byte>>
    var dict: map<seq<Byte>, nat>
    var adj: seq<Adjacent>

    function State(): EdgeState
      reads this
    {
      EdgeState(keys, dict, adj)
    }

    /** `edge_index_cache, edge_index_dict, edge_adj_cell_indices = [], {}, []` */
    constructor ()
      ensures State() == EdgeState([], map[], [])
      ensures StateOk(State())
    {
      keys := [];
      dict := map[];
      adj := [];
    }

    /** `_get_edge_index(cell_key_a, cell_key_b, direction, edge_range_info,
        code_from_a, ...)`: ValueError for a direction other than 0 and 1 or
        a range that is not three pairs, ZeroDivisionError for a zero
        denominator in the varying range, struct.error for a component that
        does not fit '!I'; otherwise the lookup-or-append of the key. The
        shared fraction is only packed, so a zero denominator there is
        accepted. */
    method GetEdgeIndex(a: nat, b: Option<nat>, direction: int, range: seq<Frac>, code: int)
      returns (r: Result<nat, EdgeError>)
      modifies this
      ensures r == Err(BadDirection) <==> direction != 0 && direction != 1
      ensures r == Err(BadRange) <==> (direction == 0 || direction == 1) && |range| != 3
      ensures r == Err(ZeroDivision) <==>
        (direction == 0 || direction == 1) && |range| == 3 && (range[0].den == 0 || range[1].den == 0)
      ensures r == Err(StructError) <==>
        (direction == 0 || direction == 1) && |range| == 3 && range[0].den != 0 && range[1].den != 0 &&
        !(FracFits(range[0]) && FracFits(range[1]) && FracFits(range[2]))
      ensures r.Ok? <==>
        (direction == 0 || direction == 1) && |range| == 3 &&
        FracOk(range[0]) && FracOk(range[1]) && FracFits(range[2])
      ensures r.Err? ==> State() == old(State())
      ensures r.Ok? ==>
        FracOk(range[0]) && FracOk(range[1]) && FracFits(range[2]) &&
        (State(), r.value) == Lookup(old(State()), EdgeKey(direction, range[0], range[1], range[2]), Oriented(code, a, b))
    {
      if direction != 0 && direction != 1 {
        return Err(BadDirection);
      }
      if |range| != 3 {
        return Err(BadRange);
      }
      var minF, maxF, sharedF := range[0], range[1], range[2];
      if minF.den == 0 || maxF.den == 0 {
        return Err(ZeroDivision);
      }
      if FracGreater(minF, maxF) {
        minF, maxF := maxF, minF;
      }
      if !(FracFits(minF) && FracFits(maxF) && FracFits(sharedF)) {
        return Err(StructError);
      }
      PowValues();
      var key := PackEdgeKey(KeyFields(if direction != 0 then 1 else 0, minF, maxF, sharedF));
      if key !in dict {
        var index := |keys|;
        dict := dict[key := index];
        keys := keys + [key];
        var cells := if code == NORTH || code == WEST then Adjacent(b, Some(a)) else Adjacent(Some(a), b);
        adj := adj + [cells];
        return Ok(index);
      } else {
        return Ok(dict[key]);
      }
    }
  }

  /** `_add_edge_to_cell`: `grid_cache.edges[cell_key][edge_code].add(edge_index)` */
  method AddEdgeToCell(g: GridCache, cell: nat, code: int, edge: nat)
    requires Table(g.edges, |g.edges|) && cell < |g.edges| && IsEdgeCode(code)
    modifies g
    ensures g.edges == AddSet(old(g.edges), cell, code, {edge})
    ensures g.neighbours == old(g.neighbours) && g.fractCoords == old(g.fractCoords)
  {
    g.edges := AddSet(g.edges, cell, code, {edge});
  }

  // ---------------------------------------------------------------------
  // The edges along one side of a cell

  /** An entry of `processed_neighbours`: the neighbour's position and its
      span along the side. */
  datatype Entry = Entry(index: nat, lo: Frac, hi: Frac)

  /** One `_get_edge_index` call of a side: the neighbour it is shared with
      (None for a gap or boundary edge) and the varying range. */
  datatype EdgeReq = EdgeReq(other: Option<nat>, lo: Frac, hi: Frac)

  /** The span of a cell along a side: x for the horizontal sides
      (direction 1), y for the vertical ones (direction 0). */
  function Span(fc: FractCoords, direction: int): (Frac, Frac)
  {
    if direction == 1 then (fc.xMin, fc.xMax) else (fc.yMin, fc.yMax)
  }

  /** The loop building `processed_neighbours` from `neighbour_indices`. */
  function Entries(fcs: seq<FractCoords>, ns: seq<nat>, direction: int): (es: seq<Entry>)
    requires forall i :: 0 <= i < |ns| ==> ns[i] < |fcs|
    ensures |es| == |ns|
    ensures forall i :: 0 <= i < |ns| ==> es[i].index == ns[i]
  {
    seq(|ns|, i requires 0 <= i < |ns| =>
      Entry(ns[i], Span(fcs[ns[i]], direction).0, Span(fcs[ns[i]], direction).1))
  }

  /** Adjacent entries are in non-decreasing order of start. */
  predicate SortedByStart(s: seq<Entry>)
  {
    forall i :: 0 <= i < |s| - 1 ==> !FracGreater(s[i].lo, s[i + 1].lo)
  }

  /** Inserting an entry that came before all of t: it goes ahead of the
      first entry that does not start earlier, which keeps the sort stable. */
  function InsertByStart(x: Entry, t: seq<Entry>): (r: seq<Entry>)
    ensures multiset(r) == multiset(t) + multiset{x}
    ensures |r| == |t| + 1
    ensures r[0] == x || (t != [] && r[0] == t[0])
  {
    if t == [] || !FracGreater(x.lo, t[0].lo) then [x] + t
    else
      assert t == [t[0]] + t[1..];
      [t[0]] + InsertByStart(x, t[1..])
  }

  lemma {:induction false} InsertSorted(x: Entry, t: seq<Entry>)
    requires SortedByStart(t)
    ensures SortedByStart(InsertByStart(x, t))
  {
    if t != [] && FracGreater(x.lo, t[0].lo) {
      var rest := InsertByStart(x, t[1..]);
      InsertSorted(x, t[1..]);
      var r := [t[0]] + rest;
      assert r == InsertByStart(x, t);
      forall i | 0 <= i < |r| - 1 ensures !FracGreater(r[i].lo, r[i + 1].lo) {
        if i > 0 {
          assert r[i] == rest[i - 1] && r[i + 1] == rest[i];
        }
      }
    }
  }

  /** `processed_neighbours.sort(key=lambda n: n['x_min'])` (or `y_min`): a
      stable insertion sort, which is what the order of Python's sort is. */
  function SortByStart(s: seq<Entry>): (r: seq<Entry>)
    ensures multiset(r) == multiset(s)
    ensures |r| == |s|
    ensures SortedByStart(r)
  {
    if s == [] then []
    else
      assert s == [s[0]] + s[1..];
      InsertSorted(s[0], SortByStart(s[1..]));
      InsertByStart(s[0], SortByStart(s[1..]))
  }

  /** The span edge of a neighbour. */
  function SpanReq(e: Entry): EdgeReq
  {
    EdgeReq(Some(e.index), e.lo, e.hi)
  }

  /** Neighbour i's span edge, then the gap edge to neighbour i + 1 when the
      two do not touch. */
  function Piece(s: seq<Entry>, i: nat): (p: seq<EdgeReq>)
    requires i + 1 < |s|
  {
    [SpanReq(s[i])] + if !FracEq(s[i].hi, s[i + 1].lo) then [EdgeReq(None, s[i].hi, s[i + 1].lo)] else []
  }

  /** The loop `for i in range(len(processed_neighbours) - 1)`, up to i = n. */
  function Pairs(s: seq<Entry>, n: nat): (p: seq<EdgeReq>)
    requires n < |s|
  {
    if n == 0 then [] else Pairs(s, n - 1) + Piece(s, n - 1)
  }

  /** The gap edge before the first neighbour, when there is one. */
  function HeadGap(lo: Frac, s: seq<Entry>): seq<EdgeReq>
    requires s != []
  {
    if !FracEq(lo, s[0].lo) then [EdgeReq(None, lo, s[0].lo)] else []
  }

  /** The last neighbour's span edge and the gap edge after it. */
  function Last(s: seq<Entry>, hi: Frac): seq<EdgeReq>
    requires s != []
  {
    var l := s[|s| - 1];
    [SpanReq(l)] + if !FracEq(hi, l.hi) then [EdgeReq(None, l.hi, hi)] else []
  }

  /** The calls of the third case, for the sorted neighbours. */
  function NeighbourPlan(lo: Frac, hi: Frac, s: seq<Entry>): seq<EdgeReq>
    requires s != []
  {
    HeadGap(lo, s) + Pairs(s, |s| - 1) + Last(s, hi)
  }

  /** The `_get_edge_index` calls of one side, in order: one boundary edge
      without neighbours, one full-side edge for a single coarser neighbour,
      else the sorted neighbours' span edges with the gaps between them. */
  function SidePlan(lo: Frac, hi: Frac, coarser: bool, entries: seq<Entry>): seq<EdgeReq>
  {
    if entries == [] then [EdgeReq(None, lo, hi)]
    else if coarser then [EdgeReq(Some(entries[0].index), lo, hi)]
    else NeighbourPlan(lo, hi, SortByStart(entries))
  }

  // ---------------------------------------------------------------------
  // What a side's edges cover

  /** Each edge ends where the next one starts. */
  predicate Links(p: seq<EdgeReq>)
  {
    forall i :: 0 <= i < |p| - 1 ==> FracEq(p[i].hi, p[i + 1].lo)
  }

  lemma LinksAppend(p: seq<EdgeReq>, q: seq<EdgeReq>)
    requires Links(p) && Links(q) && p != [] && q != []
    requires FracEq(p[|p| - 1].hi, q[0].lo)
    ensures Links(p + q)
  {
    var r := p + q;
    forall i | 0 <= i < |r| - 1 ensures FracEq(r[i].hi, r[i + 1].lo) {
      if i < |p| - 1 {
        assert r[i] == p[i] && r[i + 1] == p[i + 1];
      } else if i == |p| - 1 {
        assert r[i] == p[i] && r[i + 1] == q[0];
      } else {
        assert r[i] == q[i - |p|] && r[i + 1] == q[i - |p| + 1];
      }
    }
  }

  /** The pieces up to neighbour n, followed by n's span edge, run without a
      break from the first neighbour's start to neighbour n's end. */
  lemma {:induction false} PairsLinks(s: seq<Entry>, n: nat)
    requires n < |s|
    ensures var p := Pairs(s, n) + [SpanReq(s[n])];
      Links(p) && p[0].lo == s[0].lo && p[|p| - 1].hi == s[n].hi
  {
    if n > 0 {
      PairsLinks(s, n - 1);
      var a := Pairs(s, n - 1) + [SpanReq(s[n - 1])];
      var gap := if !FracEq(s[n - 1].hi, s[n].lo) then [EdgeReq(None, s[n - 1].hi, s[n].lo)] else [];
      assert Pairs(s, n) + [SpanReq(s[n])] == a + gap + [SpanReq(s[n])];
      if gap != [] {
        LinksAppend(a, gap);
        LinksAppend(a + gap, [SpanReq(s[n])]);
      } else {
        LinksAppend(a, [SpanReq(s[n])]);
      }
    }
  }

  /** The span edges of a plan, the calls shared with a neighbour. */
  function SpanReqs(p: seq<EdgeReq>): seq<EdgeReq>
  {
    if p == [] then []
    else SpanReqs(p[..|p| - 1]) + if p[|p| - 1].other.Some? then [p[|p| - 1]] else []
  }

  lemma {:induction false} SpanReqsAppend(p: seq<EdgeReq>, q: seq<EdgeReq>)
    ensures SpanReqs(p + q) == SpanReqs(p) + SpanReqs(q)
    decreases |q|
  {
    if q != [] {
      var init := q[..|q| - 1];
      assert (p + q)[..|p + q| - 1] == p + init;
      SpanReqsAppend(p, init);
    } else {
      assert p + q == p;
    }
  }

  /** The neighbours' pieces and the last span and tail gap run without a
      break from the first neighbour's start to hi. */
  lemma PairsLastLinks(hi: Frac, s: seq<Entry>)
    requires s != []
    ensures var w := Pairs(s, |s| - 1) + Last(s, hi);
      w != [] && w[0].lo == s[0].lo && Links(w) && FracEq(w[|w| - 1].hi, hi)
  {
    var n := |s| - 1;
    var core := Pairs(s, n) + [SpanReq(s[n])];
    PairsLinks(s, n);
    var tail := if !FracEq(hi, s[n].hi) then [EdgeReq(None, s[n].hi, hi)] else [];
    assert Pairs(s, n) + Last(s, hi) == core + tail;
    if tail != [] {
      LinksAppend(core, tail);
      assert (core + tail)[|core + tail| - 1] == tail[0];
    } else {
      assert core + tail == core;
    }
  }

  /** The third case runs without a break from lo to hi. */
  lemma NeighbourPlanLinks(lo: Frac, hi: Frac, s: seq<Entry>)
    requires s != []
    ensures var p := NeighbourPlan(lo, hi, s);
      p != [] && FracEq(lo, p[0].lo) && Links(p) && FracEq(p[|p| - 1].hi, hi)
  {
    var h, w := HeadGap(lo, s), Pairs(s, |s| - 1) + Last(s, hi);
    PairsLastLinks(hi, s);
    assert NeighbourPlan(lo, hi, s) == h + w;
    if h != [] {
      LinksAppend(h, w);
      assert (h + w)[0] == h[0] && (h + w)[|h + w| - 1] == w[|w| - 1];
    } else {
      assert h + w == w;
    }
  }

  /** The span edges of neighbours 0 to n - 1, in order. */
  function SpansUpTo(s: seq<Entry>, n: nat): (r: seq<EdgeReq>)
    requires n <= |s|
    ensures |r| == n
  {
    if n == 0 then [] else SpansUpTo(s, n - 1) + [SpanReq(s[n - 1])]
  }

  /** The i-th span edge is neighbour i's. */
  lemma {:induction false} SpansUpToIndex(s: seq<Entry>, n: nat, i: nat)
    requires i < n <= |s|
    ensures SpansUpTo(s, n)[i] == SpanReq(s[i])
  {
    if i < n - 1 {
      SpansUpToIndex(s, n - 1, i);
    }
  }

  lemma SpanReqsSingle(r: EdgeReq)
    ensures SpanReqs([r]) == if r.other.Some? then [r] else []
  {
    assert [r][..0] == [];
  }

  /** The span edges of the pieces are those of neighbours 0 to n - 1. */
  lemma {:induction false} PairsSpans(s: seq<Entry>, n: nat)
    requires n < |s|
    ensures SpanReqs(Pairs(s, n)) == SpansUpTo(s, n)
  {
    if n > 0 {
      PairsSpans(s, n - 1);
      var span := [SpanReq(s[n - 1])];
      var gap := if !FracEq(s[n - 1].hi, s[n].lo) then [EdgeReq(None, s[n - 1].hi, s[n].lo)] else [];
      assert Piece(s, n - 1) == span + gap;
      SpanReqsAppend(Pairs(s, n - 1), span + gap);
      SpanReqsAppend(span, gap);
      SpanReqsSingle(SpanReq(s[n - 1]));
      if gap != [] {
        SpanReqsSingle(gap[0]);
      }
      assert SpanReqs(span + gap) == span;
    }
  }

  lemma SpansUpToSnoc(s: seq<Entry>, n: nat)
    requires n < |s|
    ensures SpansUpTo(s, n + 1) == SpansUpTo(s, n) + [SpanReq(s[n])]
  {
  }

  lemma HeadGapSpans(lo: Frac, s: seq<Entry>)
    requires s != []
    ensures SpanReqs(HeadGap(lo, s)) == []
  {
    var h := HeadGap(lo, s);
    if h != [] {
      SpanReqsSingle(h[0]);
    }
  }

  lemma LastSpans(s: seq<Entry>, hi: Frac)
    requires s != []
    ensures SpanReqs(Last(s, hi)) == [SpanReq(s[|s| - 1])]
  {
    var n := |s| - 1;
    var span := [SpanReq(s[n])];
    var tail := if !FracEq(hi, s[n].hi) then [EdgeReq(None, s[n].hi, hi)] else [];
    assert Last(s, hi) == span + tail;
    SpanReqsAppend(span, tail);
    SpanReqsSingle(SpanReq(s[n]));
    if tail != [] {
      SpanReqsSingle(tail[0]);
    }
  }

  lemma SpanReqsThree(h: seq<EdgeReq>, mid: seq<EdgeReq>, l: seq<EdgeReq>)
    requires SpanReqs(h) == []
    ensures SpanReqs(h + mid + l) == SpanReqs(mid) + SpanReqs(l)
  {
    SpanReqsAppend(h + mid, l);
    SpanReqsAppend(h, mid);
  }

  /** The span edges of the third case are the sorted neighbours' spans. */
  lemma NeighbourPlanSpans(lo: Frac, hi: Frac, s: seq<Entry>)
    requires s != []
    ensures SpanReqs(NeighbourPlan(lo, hi, s)) == SpansUpTo(s, |s|)
  {
    var n := |s| - 1;
    SpansUpToSnoc(s, n);
    PairsSpans(s, n);
    HeadGapSpans(lo, s);
    LastSpans(s, hi);
    SpanReqsThree(HeadGap(lo, s), Pairs(s, n), Last(s, hi));
  }

  /** The edges `_calc_horizontal_edges` / `_calc_vertical_edges` emit for
      one side:
      - without neighbours, one boundary edge over the whole side;
      - with a single coarser neighbour, one edge over the whole side shared
        with it;
      - otherwise one span edge per neighbour, in increasing order of start,
        with gap edges owned by the cell alone.
      In every case the edges run without a break from the start of the
      cell's side to its end. */
  lemma SidePlanShape(lo: Frac, hi: Frac, coarser: bool, entries: seq<Entry>)
    ensures var p := SidePlan(lo, hi, coarser, entries);
      && p != [] && FracEq(lo, p[0].lo) && Links(p) && FracEq(p[|p| - 1].hi, hi)
      && (entries == [] ==> p == [EdgeReq(None, lo, hi)])
      && (entries != [] && coarser ==> p == [EdgeReq(Some(entries[0].index), lo, hi)])
      && (entries != [] && !coarser ==>
            SpanReqs(p) == SpansUpTo(SortByStart(entries), |entries|))
  {
    if entries != [] && !coarser {
      NeighbourPlanLinks(lo, hi, SortByStart(entries));
      NeighbourPlanSpans(lo, hi, SortByStart(entries));
    }
  }

  // ---------------------------------------------------------------------
  // Emitting a side's edges

  /** The fixed arguments of one side's calls: the cell, its side code and
      the opposite one, the direction and the shared fraction. */
  datatype Side = Side(cell: nat, code: int, opCode: int, direction: int, shared: Frac)

  predicate SideOk(sd: Side, n: nat)
  {
    && sd.cell < n && IsEdgeCode(sd.code) && IsEdgeCode(sd.opCode)
    && (sd.direction == 0 || sd.direction == 1) && FracOk(sd.shared)
  }

  predicate ReqOk(r: EdgeReq, n: nat)
  {
    FracOk(r.lo) && FracOk(r.hi) && (r.other.Some? ==> r.other.value < n)
  }

  predicate PlanOk(plan: seq<EdgeReq>, n: nat)
  {
    forall i :: 0 <= i < |plan| ==> ReqOk(plan[i], n)
  }

  /** The key of one call. */
  function ReqKey(sd: Side, r: EdgeReq): seq<Byte>
    requires FracOk(sd.shared) && FracOk(r.lo) && FracOk(r.hi)
  {
    EdgeKey(sd.direction, r.lo, r.hi, sd.shared)
  }

  /** One call and its `_add_edge_to_cell`s: the edge goes to the cell's
      side, and to the neighbour's opposite side when there is one. */
  function Step(st: EdgeState, t: seq<seq<set<nat>>>, sd: Side, r: EdgeReq): (res: (EdgeState, seq<seq<set<nat>>>))
    requires Table(t, |t|) && SideOk(sd, |t|) && ReqOk(r, |t|)
    ensures Table(res.1, |t|)
  {
    var (st1, e) := Lookup(st, ReqKey(sd, r), Oriented(sd.code, sd.cell, r.other));
    var t1 := AddSet(t, sd.cell, sd.code, {e});
    (st1, if r.other.Some? then AddSet(t1, r.other.value, sd.opCode, {e}) else t1)
  }

  /** The calls of a plan, in order. */
  function Apply(st: EdgeState, t: seq<seq<set<nat>>>, sd: Side, plan: seq<EdgeReq>): (res: (EdgeState, seq<seq<set<nat>>>))
    requires Table(t, |t|) && SideOk(sd, |t|) && PlanOk(plan, |t|)
    ensures Table(res.1, |t|)
    decreases |plan|
  {
    if plan == [] then (st, t)
    else
      var (st1, t1) := Apply(st, t, sd, plan[..|plan| - 1]);
      Step(st1, t1, sd, plan[|plan| - 1])
  }

  lemma ApplySnoc(st: EdgeState, t: seq<seq<set<nat>>>, sd: Side, plan: seq<EdgeReq>, r: EdgeReq)
    requires Table(t, |t|) && SideOk(sd, |t|) && PlanOk(plan, |t|) && ReqOk(r, |t|)
    ensures PlanOk(plan + [r], |t|)
    ensures var (st1, t1) := Apply(st, t, sd, plan);
      Apply(st, t, sd, plan + [r]) == Step(st1, t1, sd, r)
  {
    assert (plan + [r])[..|plan|] == plan;
  }

  /** Cell c, when there is one, holds edge x on one of its sides. */
  predicate HoldsEdge(t: seq<seq<set<nat>>>, c: Option<nat>, x: nat)
  {
    c.None? || (c.value < |t| && |t[c.value]| == 4 &&
      (x in t[c.value][0] || x in t[c.value][1] || x in t[c.value][2] || x in t[c.value][3]))
  }

  /** The edge index and the cells' edge sets agree: every edge a cell holds
      exists, and every cell an edge lists holds it. */
  predicate Consistent(st: EdgeState, t: seq<seq<set<nat>>>)
  {
    && Table(t, |t|)
    && (forall k, e, x :: 0 <= k < |t| && 0 <= e < 4 && x in t[k][e] ==> x < |st.keys|)
    && (forall i :: 0 <= i < |st.adj| ==> HoldsEdge(t, st.adj[i].first, i) && HoldsEdge(t, st.adj[i].second, i))
  }

  /** Edge sets only grow. */
  predicate Grows(t: seq<seq<set<nat>>>, t1: seq<seq<set<nat>>>)
  {
    && |t1| == |t| && Table(t, |t|) && Table(t1, |t|)
    && forall k, e :: 0 <= k < |t| && 0 <= e < 4 ==> t[k][e] <= t1[k][e]
  }

  /** The index only grows, and every key keeps its index. */
  predicate Extends(st: EdgeState, st1: EdgeState)
  {
    && st.keys <= st1.keys && st.adj <= st1.adj
    && forall k :: k in st.dict ==> k in st1.dict && st1.dict[k] == st.dict[k]
  }

  /** The edge of call r is known and held by the cell's side and by the
      neighbour's opposite side. */
  predicate Holds(st: EdgeState, t: seq<seq<set<nat>>>, sd: Side, r: EdgeReq)
    requires Table(t, |t|) && SideOk(sd, |t|) && ReqOk(r, |t|)
  {
    var key := ReqKey(sd, r);
    && key in st.dict
    && st.dict[key] in t[sd.cell][sd.code]
    && (r.other.Some? ==> st.dict[key] in t[r.other.value][sd.opCode])
  }

  lemma StepSpec(st: EdgeState, t: seq<seq<set<nat>>>, sd: Side, r: EdgeReq)
    requires Table(t, |t|) && SideOk(sd, |t|) && ReqOk(r, |t|)
    requires StateOk(st) && Consistent(st, t)
    ensures var (st1, t1) := Step(st, t, sd, r);
      && StateOk(st1) && Consistent(st1, t1) && Grows(t, t1) && Extends(st, st1)
      && Holds(st1, t1, sd, r)
  {
    var key, pair := ReqKey(sd, r), Oriented(sd.code, sd.cell, r.other);
    LookupSpec(st, key, pair);
    var (st1, e) := Lookup(st, key, pair);
    var t1 := AddSet(t, sd.cell, sd.code, {e});
    var t2 := if r.other.Some? then AddSet(t1, r.other.value, sd.opCode, {e}) else t1;
    assert Step(st, t, sd, r) == (st1, t2);
    assert Grows(t, t2);
    forall i | 0 <= i < |st1.adj|
      ensures HoldsEdge(t2, st1.adj[i].first, i) && HoldsEdge(t2, st1.adj[i].second, i)
    {
      if i < |st.adj| {
        assert st1.adj[i] == st.adj[i];
        assert HoldsEdge(t, st.adj[i].first, i) && HoldsEdge(t, st.adj[i].second, i);
      } else {
        assert st1.adj[i] == pair && i == e;
        assert e in t2[sd.cell][sd.code];
      }
    }
  }

  lemma HoldsPersists(st: EdgeState, t: seq<seq<set<nat>>>, st1: EdgeState, t1: seq<seq<set<nat>>>, sd: Side, r: EdgeReq)
    requires Table(t, |t|) && SideOk(sd, |t|) && ReqOk(r, |t|)
    requires Holds(st, t, sd, r) && Extends(st, st1) && Grows(t, t1)
    ensures Holds(st1, t1, sd, r)
  {
  }

  lemma ExtendsTrans(a: EdgeState, b: EdgeState, c: EdgeState)
    requires Extends(a, b) && Extends(b, c)
    ensures Extends(a, c)
  {
  }

  /** Running a side's calls keeps the index and the edge sets consistent,
      only adds, and leaves the edge of every call held by both cells it
      separates. */
  lemma {:induction false} ApplySpec(st: EdgeState, t: seq<seq<set<nat>>>, sd: Side, plan: seq<EdgeReq>)
    requires Table(t, |t|) && SideOk(sd, |t|) && PlanOk(plan, |t|)
    requires StateOk(st) && Consistent(st, t)
    ensures var (st1, t1) := Apply(st, t, sd, plan);
      && StateOk(st1) && Consistent(st1, t1) && Grows(t, t1) && Extends(st, st1)
      && forall i :: 0 <= i < |plan| ==> Holds(st1, t1, sd, plan[i])
    decreases |plan|
  {
    if plan != [] {
      var init, r := plan[..|plan| - 1], plan[|plan| - 1];
      ApplySpec(st, t, sd, init);
      var (st1, t1) := Apply(st, t, sd, init);
      StepSpec(st1, t1, sd, r);
      var (st2, t2) := Step(st1, t1, sd, r);
      ExtendsTrans(st, st1, st2);
      forall i | 0 <= i < |plan| ensures Holds(st2, t2, sd, plan[i]) {
        if i < |plan| - 1 {
          assert plan[i] == init[i];
          HoldsPersists(st1, t1, st2, t2, sd, init[i]);
        }
      }
    }
  }

  lemma {:induction false} ApplyAppend(st: EdgeState, t: seq<seq<set<nat>>>, sd: Side, p: seq<EdgeReq>, q: seq<EdgeReq>)
    requires Table(t, |t|) && SideOk(sd, |t|) && PlanOk(p, |t|) && PlanOk(q, |t|)
    ensures PlanOk(p + q, |t|)
    ensures var (st1, t1) := Apply(st, t, sd, p);
      Apply(st, t, sd, p + q) == Apply(st1, t1, sd, q)
    decreases |q|
  {
    if q == [] {
      assert p + q == p;
    } else {
      var init, r := q[..|q| - 1], q[|q| - 1];
      ApplyAppend(st, t, sd, p, init);
      assert (p + q)[..|p + q| - 1] == p + init;
    }
  }

  // ---------------------------------------------------------------------
  // Well-formed calls

  predicate EntryOk(e: Entry, n: nat)
  {
    e.index < n && FracOk(e.lo) && FracOk(e.hi)
  }

  predicate EntriesOk(s: seq<Entry>, n: nat)
  {
    forall i :: 0 <= i < |s| ==> EntryOk(s[i], n)
  }

  /** All four sides of every cell are usable fractions. */
  predicate CoordsOk(fcs: seq<FractCoords>)
  {
    forall i :: 0 <= i < |fcs| ==>
      FracOk(fcs[i].xMin) && FracOk(fcs[i].xMax) && FracOk(fcs[i].yMin) && FracOk(fcs[i].yMax)
  }

  lemma SortedOk(s: seq<Entry>, n: nat)
    requires EntriesOk(s, n)
    ensures EntriesOk(SortByStart(s), n)
  {
    var r := SortByStart(s);
    forall i | 0 <= i < |r| ensures EntryOk(r[i], n) {
      assert r[i] in multiset(r);
      assert r[i] in multiset(s);
      var k :| 0 <= k < |s| && s[k] == r[i];
    }
  }

  lemma PlanOkAppend(p: seq<EdgeReq>, q: seq<EdgeReq>, n: nat)
    requires PlanOk(p, n) && PlanOk(q, n)
    ensures PlanOk(p + q, n)
  {
  }

  lemma {:induction false} PairsOk(s: seq<Entry>, m: nat, n: nat)
    requires m < |s| && EntriesOk(s, n)
    ensures PlanOk(Pairs(s, m), n)
  {
    if m > 0 {
      PairsOk(s, m - 1, n);
      assert EntryOk(s[m - 1], n) && EntryOk(s[m], n);
      PlanOkAppend(Pairs(s, m - 1), Piece(s, m - 1), n);
    }
  }

  lemma NeighbourPlanOk(lo: Frac, hi: Frac, s: seq<Entry>, n: nat)
    requires s != [] && FracOk(lo) && FracOk(hi) && EntriesOk(s, n)
    ensures PlanOk(HeadGap(lo, s), n) && PlanOk(Last(s, hi), n)
    ensures PlanOk(NeighbourPlan(lo, hi, s), n)
  {
    assert EntryOk(s[0], n) && EntryOk(s[|s| - 1], n);
    PairsOk(s, |s| - 1, n);
    PlanOkAppend(HeadGap(lo, s), Pairs(s, |s| - 1), n);
    PlanOkAppend(HeadGap(lo, s) + Pairs(s, |s| - 1), Last(s, hi), n);
  }

  /** Every call of a side has usable fractions and names cells that exist. */
  lemma SidePlanOk(lo: Frac, hi: Frac, coarser: bool, entries: seq<Entry>, n: nat)
    requires FracOk(lo) && FracOk(hi) && EntriesOk(entries, n)
    ensures PlanOk(SidePlan(lo, hi, coarser, entries), n)
  {
    if entries != [] && !coarser {
      SortedOk(entries, n);
      NeighbourPlanOk(lo, hi, SortByStart(entries), n);
    } else if entries != [] {
      assert EntryOk(entries[0], n);
    }
  }

  lemma SpanReqsMember(p: seq<EdgeReq>, r: EdgeReq)
    requires r in SpanReqs(p)
    ensures r in p
    decreases |p|
  {
    var init := p[..|p| - 1];
    if r in SpanReqs(init) {
      SpanReqsMember(init, r);
      assert r in init;
    }
  }

  /** Every neighbour of the side is named by one of its calls. */
  lemma SidePlanCovers(lo: Frac, hi: Frac, coarser: bool, entries: seq<Entry>, k: nat)
    requires coarser ==> |entries| == 1
    requires k < |entries|
    ensures exists r :: r in SidePlan(lo, hi, coarser, entries) && r.other == Some(entries[k].index)
  {
    var p := SidePlan(lo, hi, coarser, entries);
    if coarser {
      assert p[0] in p;
    } else {
      var s := SortByStart(entries);
      assert entries[k] in multiset(entries);
      assert entries[k] in multiset(s);
      var m :| 0 <= m < |s| && s[m] == entries[k];
      SidePlanShape(lo, hi, coarser, entries);
      SpansUpToIndex(s, |s|, m);
      assert SpanReqs(p)[m] == SpanReq(s[m]);
      SpanReqsMember(p, SpanReq(s[m]));
    }
  }

  // ---------------------------------------------------------------------
  // The side methods

  /** The cache has an edge table, one coordinate record per cell, and
      usable fractions in every record. */
  predicate EdgeReady(g: GridCache)
    reads g
  {
    && Table(g.edges, |g.edges|) && |g.fractCoords| == |g.edges| && |g.cells| == |g.edges|
    && CoordsOk(g.fractCoords)
  }

  /** The calls of the side of cell `cellIndex` at `level` with neighbours
      `ns`: the cell's span, whether the only neighbour is coarser, and the
      neighbours' spans. */
  function SideCalls(fcs: seq<FractCoords>, cells: seq<CellId>, cellIndex: nat, level: nat, ns: seq<nat>, direction: int): seq<EdgeReq>
    requires cellIndex < |fcs| && |cells| == |fcs|
    requires forall i :: 0 <= i < |ns| ==> ns[i] < |fcs|
  {
    var (lo, hi) := Span(fcs[cellIndex], direction);
    SidePlan(lo, hi, |ns| == 1 && cells[ns[0]].level < level, Entries(fcs, ns, direction))
  }

  lemma EntriesOkOf(fcs: seq<FractCoords>, ns: seq<nat>, direction: int)
    requires CoordsOk(fcs) && forall i :: 0 <= i < |ns| ==> ns[i] < |fcs|
    ensures EntriesOk(Entries(fcs, ns, direction), |fcs|)
  {
  }

  lemma SideCallsOk(fcs: seq<FractCoords>, cells: seq<CellId>, cellIndex: nat, level: nat, ns: seq<nat>, direction: int)
    requires cellIndex < |fcs| && |cells| == |fcs| && CoordsOk(fcs)
    requires forall i :: 0 <= i < |ns| ==> ns[i] < |fcs|
    ensures PlanOk(SideCalls(fcs, cells, cellIndex, level, ns, direction), |fcs|)
  {
    var (lo, hi) := Span(fcs[cellIndex], direction);
    EntriesOkOf(fcs, ns, direction);
    SidePlanOk(lo, hi, |ns| == 1 && cells[ns[0]].level < level, Entries(fcs, ns, direction), |fcs|);
  }

  lemma EntriesSnoc(fcs: seq<FractCoords>, ns: seq<nat>, i: nat, direction: int)
    requires i < |ns| && forall j :: 0 <= j < |ns| ==> ns[j] < |fcs|
    ensures Entries(fcs, ns[..i + 1], direction) ==
      Entries(fcs, ns[..i], direction) + [Entry(ns[i], Span(fcs[ns[i]], direction).0, Span(fcs[ns[i]], direction).1)]
  {
    assert ns[..i + 1][..i] == ns[..i];
  }

  /** One `_get_edge_index` call of a side with its `_add_edge_to_cell`s. */
  method EmitEdge(g: GridCache, ix: EdgeIndex, sd: Side, r: EdgeReq)
    requires Table(g.edges, |g.edges|) && SideOk(sd, |g.edges|) && ReqOk(r, |g.edges|)
    modifies g, ix
    ensures (ix.State(), g.edges) == Step(old(ix.State()), old(g.edges), sd, r)
    ensures g.neighbours == old(g.neighbours) && g.fractCoords == old(g.fractCoords)
  {
    var res := ix.GetEdgeIndex(sd.cell, r.other, sd.direction, [r.lo, r.hi, sd.shared], sd.code);
    var edgeIndex := res.value;
    AddEdgeToCell(g, sd.cell, sd.code, edgeIndex);
    if r.other.Some? {
      AddEdgeToCell(g, r.other.value, sd.opCode, edgeIndex);
    }
  }

  lemma ApplyOne(st: EdgeState, t: seq<seq<set<nat>>>, sd: Side, r: EdgeReq)
    requires Table(t, |t|) && SideOk(sd, |t|) && ReqOk(r, |t|)
    ensures PlanOk([r], |t|) && Apply(st, t, sd, [r]) == Step(st, t, sd, r)
  {
    ApplySnoc(st, t, sd, [], r);
    assert [] + [r] == [r];
  }

  /** The body of the loop over consecutive neighbours i and i + 1. */
  method EmitPiece(g: GridCache, ix: EdgeIndex, sd: Side, sorted: seq<Entry>, i: nat)
    requires Table(g.edges, |g.edges|) && SideOk(sd, |g.edges|)
    requires i + 1 < |sorted| && EntriesOk(sorted, |g.edges|)
    modifies g, ix
    ensures PlanOk(Piece(sorted, i), |old(g.edges)|)
    ensures (ix.State(), g.edges) == Apply(old(ix.State()), old(g.edges), sd, Piece(sorted, i))
    ensures g.neighbours == old(g.neighbours) && g.fractCoords == old(g.fractCoords)
  {
    assert EntryOk(sorted[i], |g.edges|) && EntryOk(sorted[i + 1], |g.edges|);
    var from, to := sorted[i], sorted[i + 1];
    var span := EdgeReq(Some(from.index), from.lo, from.hi);
    ApplyOne(ix.State(), g.edges, sd, span);
    EmitEdge(g, ix, sd, span);
    if !FracEq(from.hi, to.lo) {
      var gap := EdgeReq(None, from.hi, to.lo);
      ApplySnoc(old(ix.State()), old(g.edges), sd, [span], gap);
      EmitEdge(g, ix, sd, gap);
    }
  }

  /** The last neighbour's span edge and the gap edge after it. */
  method EmitLast(g: GridCache, ix: EdgeIndex, sd: Side, sorted: seq<Entry>, hi: Frac)
    requires Table(g.edges, |g.edges|) && SideOk(sd, |g.edges|) && FracOk(hi)
    requires sorted != [] && EntriesOk(sorted, |g.edges|)
    modifies g, ix
    ensures PlanOk(Last(sorted, hi), |old(g.edges)|)
    ensures (ix.State(), g.edges) == Apply(old(ix.State()), old(g.edges), sd, Last(sorted, hi))
    ensures g.neighbours == old(g.neighbours) && g.fractCoords == old(g.fractCoords)
  {
    var last := sorted[|sorted| - 1];
    assert EntryOk(last, |g.edges|);
    var span := EdgeReq(Some(last.index), last.lo, last.hi);
    ApplyOne(ix.State(), g.edges, sd, span);
    EmitEdge(g, ix, sd, span);
    if !FracEq(hi, last.hi) {
      var gap := EdgeReq(None, last.hi, hi);
      ApplySnoc(old(ix.State()), old(g.edges), sd, [span], gap);
      EmitEdge(g, ix, sd, gap);
    }
  }

  /** The loop filling `processed_neighbours`. */
  method ProcessNeighbours(g: GridCache, ns: seq<nat>, direction: int) returns (processed: seq<Entry>)
    requires forall i :: 0 <= i < |ns| ==> ns[i] < |g.fractCoords|
    ensures processed == Entries(g.fractCoords, ns, direction)
  {
    processed := [];
    for i := 0 to |ns|
      invariant processed == Entries(g.fractCoords, ns[..i], direction)
    {
      var (nlo, nhi) := Span(g.fractCoords[ns[i]], direction);
      EntriesSnoc(g.fractCoords, ns, i, direction);
      processed := processed + [Entry(ns[i], nlo, nhi)];
    }
    assert ns[..|ns|] == ns;
  }

  /** The gap edge before the first sorted neighbour, if any. */
  method EmitHeadGap(g: GridCache, ix: EdgeIndex, sd: Side, lo: Frac, sorted: seq<Entry>)
    requires Table(g.edges, |g.edges|) && SideOk(sd, |g.edges|) && FracOk(lo)
    requires sorted != [] && EntriesOk(sorted, |g.edges|)
    modifies g, ix
    ensures PlanOk(HeadGap(lo, sorted), |old(g.edges)|)
    ensures (ix.State(), g.edges) == Apply(old(ix.State()), old(g.edges), sd, HeadGap(lo, sorted))
    ensures g.neighbours == old(g.neighbours) && g.fractCoords == old(g.fractCoords)
  {
    assert EntryOk(sorted[0], |g.edges|);
    if !FracEq(lo, sorted[0].lo) {
      ApplyOne(ix.State(), g.edges, sd, EdgeReq(None, lo, sorted[0].lo));
      EmitEdge(g, ix, sd, EdgeReq(None, lo, sorted[0].lo));
    }
  }

  /** The loop over consecutive pairs of sorted neighbours. */
  method EmitPairs(g: GridCache, ix: EdgeIndex, sd: Side, sorted: seq<Entry>)
    requires Table(g.edges, |g.edges|) && SideOk(sd, |g.edges|)
    requires sorted != [] && EntriesOk(sorted, |g.edges|)
    modifies g, ix
    ensures PlanOk(Pairs(sorted, |sorted| - 1), |old(g.edges)|)
    ensures (ix.State(), g.edges) == Apply(old(ix.State()), old(g.edges), sd, Pairs(sorted, |sorted| - 1))
    ensures g.neighbours == old(g.neighbours) && g.fractCoords == old(g.fractCoords)
  {
    var n := |g.edges|;
    ghost var st0, t0 := ix.State(), g.edges;
    for i := 0 to |sorted| - 1
      invariant PlanOk(Pairs(sorted, i), n)
      invariant (ix.State(), g.edges) == Apply(st0, t0, sd, Pairs(sorted, i))
      invariant g.neighbours == old(g.neighbours) && g.fractCoords == old(g.fractCoords)
    {
      EmitPiece(g, ix, sd, sorted, i);
      ApplyAppend(st0, t0, sd, Pairs(sorted, i), Piece(sorted, i));
      PlanOkAppend(Pairs(sorted, i), Piece(sorted, i), n);
    }
  }

  /** The third case: the sorted neighbours' span edges and the gap edges. */
  method EmitNeighbourEdges(g: GridCache, ix: EdgeIndex, sd: Side, lo: Frac, hi: Frac, sorted: seq<Entry>)
    requires Table(g.edges, |g.edges|) && SideOk(sd, |g.edges|) && FracOk(lo) && FracOk(hi)
    requires sorted != [] && EntriesOk(sorted, |g.edges|)
    modifies g, ix
    ensures PlanOk(NeighbourPlan(lo, hi, sorted), |old(g.edges)|)
    ensures (ix.State(), g.edges) == Apply(old(ix.State()), old(g.edges), sd, NeighbourPlan(lo, hi, sorted))
    ensures g.neighbours == old(g.neighbours) && g.fractCoords == old(g.fractCoords)
  {
    NeighbourPlanOk(lo, hi, sorted, |g.edges|);
    ghost var st0, t0 := ix.State(), g.edges;
    ghost var head, pairs := HeadGap(lo, sorted), Pairs(sorted, |sorted| - 1);
    EmitHeadGap(g, ix, sd, lo, sorted);
    EmitPairs(g, ix, sd, sorted);
    ApplyAppend(st0, t0, sd, head, pairs);
    EmitLast(g, ix, sd, sorted, hi);
    ApplyAppend(st0, t0, sd, head + pairs, Last(sorted, hi));
  }

  /** `_calc_horizontal_edges` (direction 1, spans along x) and
      `_calc_vertical_edges` (direction 0, spans along y), which differ only
      in the coordinate they read: the calls of SideCalls, in order. */
  method CalcSideEdges(g: GridCache, ix: EdgeIndex, cellIndex: nat, level: nat, ns: seq<nat>,
                       code: int, opCode: int, shared: Frac, direction: int)
    requires EdgeReady(g) && cellIndex < |g.edges|
    requires forall i :: 0 <= i < |ns| ==> ns[i] < |g.edges|
    requires SideOk(Side(cellIndex, code, opCode, direction, shared), |g.edges|)
    modifies g, ix
    ensures PlanOk(SideCalls(old(g.fractCoords), g.cells, cellIndex, level, ns, direction), |old(g.edges)|)
    ensures (ix.State(), g.edges) ==
      Apply(old(ix.State()), old(g.edges), Side(cellIndex, code, opCode, direction, shared),
            SideCalls(old(g.fractCoords), g.cells, cellIndex, level, ns, direction))
    ensures g.neighbours == old(g.neighbours) && g.fractCoords == old(g.fractCoords)
  {
    SideCallsOk(g.fractCoords, g.cells, cellIndex, level, ns, direction);
    var sd := Side(cellIndex, code, opCode, direction, shared);
    var n := |g.edges|;
    var (lo, hi) := Span(g.fractCoords[cellIndex], direction);
    // no neighbour
    if |ns| == 0 {
      ApplyOne(ix.State(), g.edges, sd, EdgeReq(None, lo, hi));
      EmitEdge(g, ix, sd, EdgeReq(None, lo, hi));
      return;
    }
    // a single neighbour of a lower level
    if |ns| == 1 && g.cells[ns[0]].level < level {
      ApplyOne(ix.State(), g.edges, sd, EdgeReq(Some(ns[0]), lo, hi));
      EmitEdge(g, ix, sd, EdgeReq(Some(ns[0]), lo, hi));
      return;
    }
    // neighbours of equal or higher levels
    var processed := ProcessNeighbours(g, ns, direction);
    EntriesOkOf(g.fractCoords, ns, direction);
    var sorted := SortByStart(processed);
    SortedOk(processed, n);
    EmitNeighbourEdges(g, ix, sd, lo, hi, sorted);
  }
}
