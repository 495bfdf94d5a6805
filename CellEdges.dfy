/** `_calc_horizontal_edges`, `_calc_vertical_edges` and `_calc_cell_edges`
    of server/templates/grid/hooks.py: every side of every cell gets its
    edges, and every recorded neighbour pair ends up sharing an edge. */
module CellEdges {
  import opened Bytes
  import opened Wrappers
  import opened Geometry
  import opened Fractions
  import opened GridCache
  import opened Edges

  // ---------------------------------------------------------------------
  // The two side functions

  /** `_calc_horizontal_edges`: a north or south side, spanning x_min..x_max
      at height `sharedY`. */
  method CalcHorizontalEdges(g: GridCache, ix: EdgeIndex, cellIndex: nat, level: nat, ns: seq<nat>,
                             code: int, opCode: int, sharedY: Frac)
    requires EdgeReady(g) && cellIndex < |g.edges|
    requires forall i :: 0 <= i < |ns| ==> ns[i] < |g.edges|
    requires SideOk(Side(cellIndex, code, opCode, 1, sharedY), |g.edges|)
    modifies g, ix
    ensures PlanOk(SideCalls(old(g.fractCoords), g.cells, cellIndex, level, ns, 1), |old(g.edges)|)
    ensures (ix.State(), g.edges) ==
      Apply(old(ix.State()), old(g.edges), Side(cellIndex, code, opCode, 1, sharedY),
            SideCalls(old(g.fractCoords), g.cells, cellIndex, level, ns, 1))
    ensures g.neighbours == old(g.neighbours) && g.fractCoords == old(g.fractCoords)
  {
    CalcSideEdges(g, ix, cellIndex, level, ns, code, opCode, sharedY, 1);
  }

  /** `_calc_vertical_edges`: a west or east side, spanning y_min..y_max at
      abscissa `sharedX`. */
  method CalcVerticalEdges(g: GridCache, ix: EdgeIndex, cellIndex: nat, level: nat, ns: seq<nat>,
                           code: int, opCode: int, sharedX: Frac)
    requires EdgeReady(g) && cellIndex < |g.edges|
    requires forall i :: 0 <= i < |ns| ==> ns[i] < |g.edges|
    requires SideOk(Side(cellIndex, code, opCode, 0, sharedX), |g.edges|)
    modifies g, ix
    ensures PlanOk(SideCalls(old(g.fractCoords), g.cells, cellIndex, level, ns, 0), |old(g.edges)|)
    ensures (ix.State(), g.edges) ==
      Apply(old(ix.State()), old(g.edges), Side(cellIndex, code, opCode, 0, sharedX),
            SideCalls(old(g.fractCoords), g.cells, cellIndex, level, ns, 0))
    ensures g.neighbours == old(g.neighbours) && g.fractCoords == old(g.fractCoords)
  {
    CalcSideEdges(g, ix, cellIndex, level, ns, code, opCode, sharedX, 0);
  }

  // ---------------------------------------------------------------------
  // What one side's calls achieve

  /** A neighbour table over n cells whose entries are cells. */
  predicate NbOk(nb: seq<seq<set<nat>>>, n: nat)
  {
    Table(nb, n) && forall k, d, j :: 0 <= k < n && 0 <= d < 4 && j in nb[k][d] ==> j < n
  }

  lemma ValidNbOk(g: GridCache)
    requires g.Valid()
    ensures NbOk(g.neighbours, |g.edges|)
  {
  }

  /** Cell k's side e holds an edge, and shares one with every neighbour
      recorded on that side. */
  predicate SideDone(t: seq<seq<set<nat>>>, nb: seq<seq<set<nat>>>, k: nat, e: int)
    requires Table(t, |t|) && NbOk(nb, |t|) && k < |t| && IsEdgeCode(e)
  {
    && t[k][e] != {}
    && forall j :: j in nb[k][e] ==> t[k][e] * t[j][ToggleCode(e)] != {}
  }

  predicate CellDone(t: seq<seq<set<nat>>>, nb: seq<seq<set<nat>>>, k: nat)
    requires Table(t, |t|) && NbOk(nb, |t|) && k < |t|
  {
    SideDone(t, nb, k, NORTH) && SideDone(t, nb, k, WEST) &&
    SideDone(t, nb, k, SOUTH) && SideDone(t, nb, k, EAST)
  }

  lemma SideDonePersists(t: seq<seq<set<nat>>>, t1: seq<seq<set<nat>>>, nb: seq<seq<set<nat>>>, k: nat, e: int)
    requires NbOk(nb, |t|) && k < |t| && IsEdgeCode(e)
    requires Grows(t, t1) && SideDone(t, nb, k, e)
    ensures SideDone(t1, nb, k, e)
  {
    forall j | j in nb[k][e]
      ensures t1[k][e] * t1[j][ToggleCode(e)] != {}
    {
      var x :| x in t[k][e] * t[j][ToggleCode(e)];
      assert x in t1[k][e] * t1[j][ToggleCode(e)];
    }
  }

  lemma CellDonePersists(t: seq<seq<set<nat>>>, t1: seq<seq<set<nat>>>, nb: seq<seq<set<nat>>>, k: nat)
    requires NbOk(nb, |t|) && k < |t|
    requires Grows(t, t1) && CellDone(t, nb, k)
    ensures CellDone(t1, nb, k)
  {
    SideDonePersists(t, t1, nb, k, NORTH);
    SideDonePersists(t, t1, nb, k, WEST);
    SideDonePersists(t, t1, nb, k, SOUTH);
    SideDonePersists(t, t1, nb, k, EAST);
  }

  lemma GrowsTrans(a: seq<seq<set<nat>>>, b: seq<seq<set<nat>>>, c: seq<seq<set<nat>>>)
    requires Grows(a, b) && Grows(b, c)
    ensures Grows(a, c)
  {
  }

  lemma GrowsRefl(a: seq<seq<set<nat>>>)
    requires Table(a, |a|)
    ensures Grows(a, a)
  {
  }

  /** A side's calls are never empty, and each neighbour the side was called
      with is the other cell of one of them. */
  lemma SideCallsCover(fcs: seq<FractCoords>, cells: seq<CellId>, cellIndex: nat, level: nat, ns: seq<nat>, direction: int)
    requires cellIndex < |fcs| && |cells| == |fcs|
    requires forall i :: 0 <= i < |ns| ==> ns[i] < |fcs|
    ensures var plan := SideCalls(fcs, cells, cellIndex, level, ns, direction);
      && plan != []
      && forall k :: 0 <= k < |ns| ==> exists i :: 0 <= i < |plan| && plan[i].other == Some(ns[k])
  {
    var (lo, hi) := Span(fcs[cellIndex], direction);
    var coarser := |ns| == 1 && cells[ns[0]].level < level;
    var entries := Entries(fcs, ns, direction);
    var plan := SideCalls(fcs, cells, cellIndex, level, ns, direction);
    assert plan == SidePlan(lo, hi, coarser, entries);
    SidePlanShape(lo, hi, coarser, entries);
    forall k | 0 <= k < |ns|
      ensures exists i :: 0 <= i < |plan| && plan[i].other == Some(ns[k])
    {
      SidePlanCovers(lo, hi, coarser, entries, k);
      var r :| r in plan && r.other == Some(entries[k].index);
      var i :| 0 <= i < |plan| && plan[i] == r;
    }
  }

  /** Once every call of a plan holds, the side has an edge and shares one
      with each covered neighbour. */
  lemma HeldPlanShares(st: EdgeState, t: seq<seq<set<nat>>>, sd: Side, plan: seq<EdgeReq>, ns: seq<nat>)
    requires Table(t, |t|) && SideOk(sd, |t|) && PlanOk(plan, |t|) && plan != []
    requires forall i :: 0 <= i < |plan| ==> Holds(st, t, sd, plan[i])
    requires forall k :: 0 <= k < |ns| ==> exists i :: 0 <= i < |plan| && plan[i].other == Some(ns[k])
    ensures t[sd.cell][sd.code] != {}
    ensures forall k :: 0 <= k < |ns| ==> t[sd.cell][sd.code] * t[ns[k]][sd.opCode] != {}
  {
    assert Holds(st, t, sd, plan[0]);
    assert st.dict[ReqKey(sd, plan[0])] in t[sd.cell][sd.code];
    forall k | 0 <= k < |ns|
      ensures t[sd.cell][sd.code] * t[ns[k]][sd.opCode] != {}
    {
      var i :| 0 <= i < |plan| && plan[i].other == Some(ns[k]);
      assert Holds(st, t, sd, plan[i]);
      assert st.dict[ReqKey(sd, plan[i])] in t[sd.cell][sd.code] * t[ns[k]][sd.opCode];
    }
  }

  /** Running one side's calls keeps the index consistent, gives the side an
      edge, and gives it an edge in common with the opposite side of every
      neighbour it was called with. */
  lemma SideCallsSpec(st: EdgeState, t: seq<seq<set<nat>>>, fcs: seq<FractCoords>, cells: seq<CellId>,
                      level: nat, ns: seq<nat>, sd: Side)
    requires Table(t, |t|) && |fcs| == |t| && |cells| == |t| && CoordsOk(fcs)
    requires SideOk(sd, |t|) && forall i :: 0 <= i < |ns| ==> ns[i] < |t|
    requires StateOk(st) && Consistent(st, t)
    ensures PlanOk(SideCalls(fcs, cells, sd.cell, level, ns, sd.direction), |t|)
    ensures var (st1, t1) := Apply(st, t, sd, SideCalls(fcs, cells, sd.cell, level, ns, sd.direction));
      && StateOk(st1) && Consistent(st1, t1) && Grows(t, t1) && Extends(st, st1)
      && t1[sd.cell][sd.code] != {}
      && forall k :: 0 <= k < |ns| ==> t1[sd.cell][sd.code] * t1[ns[k]][sd.opCode] != {}
  {
    var plan := SideCalls(fcs, cells, sd.cell, level, ns, sd.direction);
    SideCallsOk(fcs, cells, sd.cell, level, ns, sd.direction);
    ApplySpec(st, t, sd, plan);
    SideCallsCover(fcs, cells, sd.cell, level, ns, sd.direction);
    var (st1, t1) := Apply(st, t, sd, plan);
    HeldPlanShares(st1, t1, sd, plan, ns);
  }

  // ---------------------------------------------------------------------
  // `list(neighbours[code])`

  /** `list(s)`: the elements of a set in some order, each once. Python's
      iteration order of a set is not part of the model. */
  method SetToList(s: set<nat>) returns (xs: seq<nat>)
    ensures forall x :: x in xs <==> x in s
    ensures |xs| == |s|
  {
    xs := [];
    var rest := s;
    while rest != {}
      invariant rest <= s
      invariant forall x :: x in xs <==> x in s - rest
      invariant |xs| + |rest| == |s|
      decreases |rest|
    {
      var x :| x in rest;
      DisjointCard(xs, s, rest, x);
      xs := xs + [x];
      rest := rest - {x};
    }
  }

  /** Helper for SetToList's count: taking one element out of the rest keeps
      the total. */
  lemma DisjointCard(xs: seq<nat>, s: set<nat>, rest: set<nat>, x: nat)
    requires rest <= s && x in rest && |xs| + |rest| == |s|
    ensures |xs + [x]| + |rest - {x}| == |s|
  {
  }

  // ---------------------------------------------------------------------
  // `_calc_cell_edges`

  /** The cells lie inside their level's extent, and the extents fit the u32
      fields of the edge key (`struct.pack` would raise otherwise). */
  predicate CellsInLevels(cells: seq<CellId>, levelInfo: seq<Dims>)
  {
    forall i :: 0 <= i < |cells| ==>
      && cells[i].level < |levelInfo|
      && 0 < levelInfo[cells[i].level].width < U32_LIMIT
      && 0 < levelInfo[cells[i].level].height < U32_LIMIT
      && cells[i].gid < levelInfo[cells[i].level].width * levelInfo[cells[i].level].height
  }

  /** The pre-computed `fract_coords`: one entry per cell, in array order. */
  function AllFractions(cells: seq<CellId>, levelInfo: seq<Dims>): (fcs: seq<FractCoords>)
    requires CellsInLevels(cells, levelInfo)
    ensures |fcs| == |cells|
  {
    seq(|cells|, i requires 0 <= i < |cells| =>
      CellFractions(cells[i].gid, levelInfo[cells[i].level].width, levelInfo[cells[i].level].height))
  }

  lemma MulAtLeast(a: nat, b: nat)
    requires a > 0
    ensures a * b >= b
  {
  }

  lemma ReducedBound(n: nat, m: nat)
    requires m > 0
    ensures Reduced(n, m).num <= n && 0 < Reduced(n, m).den <= m
  {
    ReducedShape(n, m);
    MulAtLeast(Gcd(n, m), Reduced(n, m).num);
    MulAtLeast(Gcd(n, m), Reduced(n, m).den);
  }

  lemma MulMono(w: nat, a: nat, b: nat)
    ensures a <= b ==> w * a <= w * b
  {
    if a <= b {
      assert w * b == w * a + w * (b - a);
    }
  }

  lemma RowBound(gid: nat, width: nat, height: nat)
    requires width > 0 && gid < width * height
    ensures gid / width < height
  {
    MulMono(width, height, gid / width);
    assert width * (gid / width) <= gid;
  }

  /** The four fractions of a cell at column u and row v. */
  lemma SidesOk(u: nat, v: nat, width: nat, height: nat)
    requires u < width < U32_LIMIT && v < height < U32_LIMIT
    ensures FracOk(Reduced(u, width)) && FracOk(Reduced(u + 1, width))
    ensures FracOk(Reduced(v, height)) && FracOk(Reduced(v + 1, height))
  {
    ReducedBound(u, width);
    ReducedBound(u + 1, width);
    ReducedBound(v, height);
    ReducedBound(v + 1, height);
  }

  /** A cell inside its level has four sides that are usable fractions. */
  lemma CellFractionsOk(gid: nat, width: nat, height: nat)
    requires 0 < width < U32_LIMIT && 0 < height < U32_LIMIT && gid < width * height
    ensures var fc := CellFractions(gid, width, height);
      FracOk(fc.xMin) && FracOk(fc.xMax) && FracOk(fc.yMin) && FracOk(fc.yMax)
  {
    RowBound(gid, width, height);
    SidesOk(gid % width, gid / width, width, height);
  }

  lemma AllFractionsOk(cells: seq<CellId>, levelInfo: seq<Dims>)
    requires CellsInLevels(cells, levelInfo)
    ensures CoordsOk(AllFractions(cells, levelInfo))
  {
    forall i | 0 <= i < |cells|
      ensures var fc := AllFractions(cells, levelInfo)[i];
        FracOk(fc.xMin) && FracOk(fc.xMax) && FracOk(fc.yMin) && FracOk(fc.yMax)
    {
      var d := levelInfo[cells[i].level];
      CellFractionsOk(cells[i].gid, d.width, d.height);
    }
  }

  /** The first loop of `_calc_cell_edges`: append each cell's fractions. */
  method FillFractions(g: GridCache, levelInfo: seq<Dims>)
    requires g.fractCoords == [] && CellsInLevels(g.cells, levelInfo)
    modifies g
    ensures g.fractCoords == AllFractions(g.cells, levelInfo)
    ensures g.edges == old(g.edges) && g.neighbours == old(g.neighbours)
  {
    for i := 0 to |g.cells|
      invariant g.fractCoords == AllFractions(g.cells, levelInfo)[..i]
      invariant g.edges == old(g.edges) && g.neighbours == old(g.neighbours)
    {
      var c := g.cells[i];
      var fc := GetFractionalCoords(c.level, c.gid, levelInfo);
      g.fractCoords := g.fractCoords + [fc];
    }
  }

  /** The body of the second loop for cell k: its north, west, south and east
      sides, in that order. */
  method CellSides(g: GridCache, ix: EdgeIndex, k: nat)
    requires EdgeReady(g) && NbOk(g.neighbours, |g.edges|) && k < |g.edges|
    requires StateOk(ix.State()) && Consistent(ix.State(), g.edges)
    modifies g, ix
    ensures StateOk(ix.State()) && Consistent(ix.State(), g.edges)
    ensures Grows(old(g.edges), g.edges) && Extends(old(ix.State()), ix.State())
    ensures g.neighbours == old(g.neighbours) && g.fractCoords == old(g.fractCoords)
    ensures EdgeReady(g) && |g.edges| == old(|g.edges|)
    ensures CellDone(g.edges, g.neighbours, k)
  {
    ghost var t0 := g.edges;
    var level := g.cells[k].level;
    var fc := g.fractCoords[k];
    var nb := g.neighbours[k];

    var north := SetToList(nb[NORTH]);
    SideStep(g, ix, k, level, north, NORTH, SOUTH, fc.yMax, 1);
    ghost var t1 := g.edges;
    var west := SetToList(nb[WEST]);
    SideStep(g, ix, k, level, west, WEST, EAST, fc.xMin, 0);
    ghost var t2 := g.edges;
    var south := SetToList(nb[SOUTH]);
    SideStep(g, ix, k, level, south, SOUTH, NORTH, fc.yMin, 1);
    ghost var t3 := g.edges;
    var east := SetToList(nb[EAST]);
    SideStep(g, ix, k, level, east, EAST, WEST, fc.xMax, 0);

    SideDonePersists(t1, g.edges, g.neighbours, k, NORTH) by { GrowsTrans(t1, t2, t3); GrowsTrans(t1, t3, g.edges); }
    SideDonePersists(t2, g.edges, g.neighbours, k, WEST) by { GrowsTrans(t2, t3, g.edges); }
    SideDonePersists(t3, g.edges, g.neighbours, k, SOUTH);
    GrowsTrans(t0, t1, t2);
    GrowsTrans(t0, t2, t3);
    GrowsTrans(t0, t3, g.edges);
  }

  /** One `_calc_horizontal_edges` / `_calc_vertical_edges` call of the loop,
      with what it achieves for that side. */
  method SideStep(g: GridCache, ix: EdgeIndex, k: nat, level: nat, ns: seq<nat>,
                  code: int, opCode: int, shared: Frac, direction: int)
    requires EdgeReady(g) && NbOk(g.neighbours, |g.edges|) && k < |g.edges|
    requires StateOk(ix.State()) && Consistent(ix.State(), g.edges)
    requires IsEdgeCode(code) && opCode == ToggleCode(code) && (direction == 0 || direction == 1) && FracOk(shared)
    requires forall x :: x in ns <==> x in g.neighbours[k][code]
    modifies g, ix
    ensures g.neighbours == old(g.neighbours) && g.fractCoords == old(g.fractCoords)
    ensures EdgeReady(g) && |g.edges| == old(|g.edges|)
    ensures StateOk(ix.State()) && Consistent(ix.State(), g.edges)
    ensures Grows(old(g.edges), g.edges) && Extends(old(ix.State()), ix.State())
    ensures SideDone(g.edges, g.neighbours, k, code)
  {
    ToggleInvolution(code);
    var sd := Side(k, code, opCode, direction, shared);
    forall i | 0 <= i < |ns| ensures ns[i] < |g.edges| {
      assert ns[i] in g.neighbours[k][code];
    }
    SideCallsSpec(ix.State(), g.edges, g.fractCoords, g.cells, level, ns, sd);
    if direction == 1 {
      CalcHorizontalEdges(g, ix, k, level, ns, code, opCode, shared);
    } else {
      CalcVerticalEdges(g, ix, k, level, ns, code, opCode, shared);
    }
    forall j | j in g.neighbours[k][code]
      ensures g.edges[k][code] * g.edges[j][ToggleCode(code)] != {}
    {
      var i :| 0 <= i < |ns| && ns[i] == j;
    }
  }

  /** The cells before k are done. */
  predicate DoneBefore(t: seq<seq<set<nat>>>, nb: seq<seq<set<nat>>>, k: nat)
    requires Table(t, |t|) && NbOk(nb, |t|) && k <= |t|
  {
    forall j :: 0 <= j < k ==> CellDone(t, nb, j)
  }

  lemma DoneBeforeStep(t: seq<seq<set<nat>>>, t1: seq<seq<set<nat>>>, nb: seq<seq<set<nat>>>, k: nat)
    requires NbOk(nb, |t|) && k < |t|
    requires Grows(t, t1) && DoneBefore(t, nb, k) && CellDone(t1, nb, k)
    ensures DoneBefore(t1, nb, k + 1)
  {
    forall j | 0 <= j < k ensures CellDone(t1, nb, j) {
      CellDonePersists(t, t1, nb, j);
    }
  }

  /** The second loop of `_calc_cell_edges`: the four sides of every cell. */
  method AllCellSides(g: GridCache, ix: EdgeIndex)
    requires EdgeReady(g) && NbOk(g.neighbours, |g.edges|)
    requires StateOk(ix.State()) && Consistent(ix.State(), g.edges)
    modifies g, ix
    ensures g.neighbours == old(g.neighbours) && g.fractCoords == old(g.fractCoords)
    ensures EdgeReady(g) && |g.edges| == old(|g.edges|)
    ensures StateOk(ix.State()) && Consistent(ix.State(), g.edges)
    ensures Grows(old(g.edges), g.edges) && Extends(old(ix.State()), ix.State())
    ensures DoneBefore(g.edges, g.neighbours, |g.edges|)
  {
    GrowsRefl(g.edges);
    for k := 0 to |g.cells|
      invariant g.neighbours == old(g.neighbours) && g.fractCoords == old(g.fractCoords)
      invariant EdgeReady(g) && |g.edges| == old(|g.edges|)
      invariant StateOk(ix.State()) && Consistent(ix.State(), g.edges)
      invariant Grows(old(g.edges), g.edges) && Extends(old(ix.State()), ix.State())
      invariant DoneBefore(g.edges, g.neighbours, k)
    {
      ghost var t0, st0 := g.edges, ix.State();
      CellSides(g, ix, k);
      DoneBeforeStep(t0, g.edges, g.neighbours, k);
      GrowsTrans(old(g.edges), t0, g.edges);
      ExtendsTrans(old(ix.State()), st0, ix.State());
    }
  }

  /** `_calc_cell_edges`: fill the fractions, then run the four sides of every
      cell. Afterwards every side of every cell holds an edge, every recorded
      neighbour pair shares an edge on the touching sides, and the index and
      the cells' edge sets agree. */
  method CalcCellEdges(g: GridCache, ix: EdgeIndex, levelInfo: seq<Dims>)
    requires g.Valid() && g.fractCoords == [] && CellsInLevels(g.cells, levelInfo)
    requires StateOk(ix.State()) && Consistent(ix.State(), g.edges)
    modifies g, ix
    ensures g.Valid() && g.neighbours == old(g.neighbours)
    ensures g.fractCoords == AllFractions(g.cells, levelInfo)
    ensures StateOk(ix.State()) && Consistent(ix.State(), g.edges)
    ensures Grows(old(g.edges), g.edges) && Extends(old(ix.State()), ix.State())
    ensures forall k :: 0 <= k < |g.edges| ==> CellDone(g.edges, g.neighbours, k)
  {
    FillFractions(g, levelInfo);
    AllFractionsOk(g.cells, levelInfo);
    ValidNbOk(g);
    AllCellSides(g, ix);
  }
}
