/** Neighbour discovery of server/templates/grid/hooks.py: for every cached
    cell and each of its four sides, the same-level cell across that side,
    or, when that one is not cached, its cached descendants along the shared
    side, found by an explicit-stack search over children. */
module Neighbours {
  import opened Geometry
  import opened Wrappers
  import opened CellKey
  import opened GridCache

  /** hooks.py's own `_get_children_global_ids`: an empty list for a level
      outside the level table, else the children in local-id order. */
  method ChildrenGlobalIds(level: int, gid: nat, levelInfo: seq<Dims>, rules: seq<Rule>) returns (ids: seq<nat>)
    requires LevelTable(rules, levelInfo)
    ensures level < 0 || level >= |levelInfo| ==> ids == []
    ensures 0 <= level < |levelInfo| ==> ids == Children(rules, level, gid)
  {
    if level < 0 || level >= |levelInfo| {
      return [];
    }
    DimsPositive(rules, level);
    var cols := levelInfo[level].width;
    var u, v := gid % cols, gid / cols;
    var sw, sh := rules[level].sw, rules[level].sh;
    var count := sw * sh;
    var childIds := new nat[count];
    var local := 0;
    while local < count
      invariant 0 <= local <= count
      invariant forall j :: 0 <= j < local ==> childIds[j] == ChildAt(rules, level, gid, j)
    {
      // row v * sh + local / sw and column u * sw + local % sw of a level
      // cols * sw columns wide
      childIds[local] := ChildGid(u, v, cols, sw, sh, local);
      ChildAtOf(rules, level, gid, local, cols);
      local := local + 1;
    }
    ids := childIds[..];
    assert forall j :: 0 <= j < count ==> ids[j] == Children(rules, level, gid)[j];
  }

  // ---------------------------------------------------------------------
  // The cells the search finds, as a recursive definition

  /** Levels left below a cell; 0 once no rule subdivides it. */
  function Depth(rules: seq<Rule>, c: CellId): nat
  {
    if c.level >= |rules| then 0 else |rules| - c.level
  }

  /** Child `k` of a cell that has a rule. */
  function ChildCell(rules: seq<Rule>, c: CellId, k: nat): CellId
    requires WellFormed(rules) && c.level < |rules|
  {
    CellId(c.level + 1, ChildAt(rules, c.level, c.gid, k))
  }

  /** The cached cells reached from `c` across side `side`: c itself when
      cached, else its cached descendants along the shared side. */
  function Found(rules: seq<Rule>, cached: map<CellId, nat>, side: int, c: CellId): set<CellId>
    requires WellFormed(rules) && IsEdgeCode(side)
    decreases Depth(rules, c), 2, 0
  {
    if c in cached then {c} else Below(rules, cached, side, c)
  }

  /** What the search finds under an uncached cell: nothing past the last
      rule, else the finds of its adjacent children. */
  function Below(rules: seq<Rule>, cached: map<CellId, nat>, side: int, c: CellId): set<CellId>
    requires WellFormed(rules) && IsEdgeCode(side)
    decreases Depth(rules, c), 1, 0
  {
    if c.level >= |rules| then {} else FoundFrom(rules, cached, side, c, 0)
  }

  /** The finds of the adjacent children of c from local id k on. */
  function FoundFrom(rules: seq<Rule>, cached: map<CellId, nat>, side: int, c: CellId, k: nat): set<CellId>
    requires WellFormed(rules) && IsEdgeCode(side) && c.level < |rules|
    requires k <= rules[c.level].sw * rules[c.level].sh
    decreases Depth(rules, c), 0, rules[c.level].sw * rules[c.level].sh - k
  {
    var r := rules[c.level];
    if k == r.sw * r.sh then {}
    else
      var here := if AdjacentCheck(side, k, r.sw, r.sh) then Found(rules, cached, side, ChildCell(rules, c, k)) else {};
      here + FoundFrom(rules, cached, side, c, k + 1)
  }

  /** Everything found is cached. */
  lemma {:induction false} FoundCached(rules: seq<Rule>, cached: map<CellId, nat>, side: int, c: CellId)
    requires WellFormed(rules) && IsEdgeCode(side)
    ensures forall x :: x in Found(rules, cached, side, c) ==> x in cached
    decreases Depth(rules, c), 2, 0
  {
    if c !in cached {
      BelowCached(rules, cached, side, c);
    }
  }

  lemma {:induction false} BelowCached(rules: seq<Rule>, cached: map<CellId, nat>, side: int, c: CellId)
    requires WellFormed(rules) && IsEdgeCode(side)
    ensures forall x :: x in Below(rules, cached, side, c) ==> x in cached
    decreases Depth(rules, c), 1, 0
  {
    if c.level < |rules| {
      FoundFromCached(rules, cached, side, c, 0);
    }
  }

  lemma {:induction false} FoundFromCached(rules: seq<Rule>, cached: map<CellId, nat>, side: int, c: CellId, k: nat)
    requires WellFormed(rules) && IsEdgeCode(side) && c.level < |rules|
    requires k <= rules[c.level].sw * rules[c.level].sh
    ensures forall x :: x in FoundFrom(rules, cached, side, c, k) ==> x in cached
    decreases Depth(rules, c), 0, rules[c.level].sw * rules[c.level].sh - k
  {
    var r := rules[c.level];
    if k < r.sw * r.sh {
      FoundCached(rules, cached, side, ChildCell(rules, c, k));
      FoundFromCached(rules, cached, side, c, k + 1);
    }
  }

  /** Everything found under an uncached cell lies strictly below it. */
  lemma {:induction false} FoundDeeper(rules: seq<Rule>, cached: map<CellId, nat>, side: int, c: CellId)
    requires WellFormed(rules) && IsEdgeCode(side)
    ensures forall x :: x in Found(rules, cached, side, c) ==> x.level >= c.level
    ensures c !in cached ==> forall x :: x in Found(rules, cached, side, c) ==> x.level > c.level
    decreases Depth(rules, c), 2, 0
  {
    if c !in cached && c.level < |rules| {
      FoundFromDeeper(rules, cached, side, c, 0);
    }
  }

  lemma {:induction false} FoundFromDeeper(rules: seq<Rule>, cached: map<CellId, nat>, side: int, c: CellId, k: nat)
    requires WellFormed(rules) && IsEdgeCode(side) && c.level < |rules|
    requires k <= rules[c.level].sw * rules[c.level].sh
    ensures forall x :: x in FoundFrom(rules, cached, side, c, k) ==> x.level > c.level
    decreases Depth(rules, c), 0, rules[c.level].sw * rules[c.level].sh - k
  {
    var r := rules[c.level];
    if k < r.sw * r.sh {
      FoundDeeper(rules, cached, side, ChildCell(rules, c, k));
      FoundFromDeeper(rules, cached, side, c, k + 1);
    }
  }

  // ---------------------------------------------------------------------
  // Recording a set of neighbours

  /** Positions of the found cells. */
  function Positions(cached: map<CellId, nat>, found: set<CellId>): set<nat>
  {
    set x | x in found && x in cached :: cached[x]
  }

  lemma PositionsSnoc(cached: map<CellId, nat>, s: seq<CellId>, x: CellId)
    requires x in cached
    ensures Positions(cached, Elements(s + [x])) == Positions(cached, Elements(s)) + {cached[x]}
  {
    ElementsSnoc(s, x);
  }

  /** t1 is t0 with every j in s recorded as a side-d neighbour of i, and i as
      a toggled-side neighbour of every j in s. */
  ghost predicate Added(t0: seq<seq<set<nat>>>, t1: seq<seq<set<nat>>>, i: nat, d: int, s: set<nat>)
    requires Table(t0, |t0|) && IsEdgeCode(d)
  {
    && Table(t1, |t0|)
    && forall k: nat, e: nat, x: nat {:trigger x in t1[k][e]} {:trigger x in t0[k][e]} :: k < |t0| && e < 4 ==>
         (x in t1[k][e] <==>
            x in t0[k][e] || (k == i && e == d && x in s) || (x == i && e == ToggleCode(d) && k in s))
  }

  lemma AddedNone(t: seq<seq<set<nat>>>, i: nat, d: int)
    requires Table(t, |t|) && IsEdgeCode(d)
    ensures Added(t, t, i, d, {})
  {
  }

  lemma AddedStep(t0: seq<seq<set<nat>>>, t1: seq<seq<set<nat>>>, i: nat, d: int, s: set<nat>, j: nat)
    requires Table(t0, |t0|) && IsEdgeCode(d) && Added(t0, t1, i, d, s)
    requires i < |t0| && j < |t0|
    ensures Added(t0, AddPair(t1, i, d, j), i, d, s + {j})
  {
    var td := ToggleCode(d);
    var mid := AddSet(t1, i, d, {j});
    var t2 := AddSet(mid, j, td, {i});
    assert t2 == AddPair(t1, i, d, j);
    forall k: nat, e: nat, x: nat | k < |t0| && e < 4
      ensures x in t2[k][e] <==>
        x in t0[k][e] || (k == i && e == d && x in s + {j}) || (x == i && e == td && k in s + {j})
    {
      assert mid[k][e] == if k == i && e == d then t1[k][e] + {j} else t1[k][e];
      assert t2[k][e] == if k == j && e == td then mid[k][e] + {i} else mid[k][e];
      assert x in t1[k][e] <==>
        x in t0[k][e] || (k == i && e == d && x in s) || (x == i && e == td && k in s);
    }
  }

  lemma AddedSingle(t: seq<seq<set<nat>>>, i: nat, d: int, j: nat)
    requires Table(t, |t|) && IsEdgeCode(d) && i < |t| && j < |t|
    ensures Added(t, AddPair(t, i, d, j), i, d, {j})
  {
    AddedNone(t, i, d);
    AddedStep(t, t, i, d, {}, j);
  }

  // ---------------------------------------------------------------------
  // The search

  /** Weight of the subtree under a cell, one unit per node; it bounds the work
      of the search and so proves that it ends. */
  function Weight(rules: seq<Rule>, level: nat): (w: nat)
    requires WellFormed(rules)
    ensures w >= 1
    decreases if level >= |rules| then 0 else |rules| - level
  {
    if level >= |rules| then 1
    else 1 + rules[level].sw * rules[level].sh * Weight(rules, level + 1)
  }

  function StackWeight(rules: seq<Rule>, stack: seq<CellId>): nat
    requires WellFormed(rules)
  {
    if stack == [] then 0
    else StackWeight(rules, stack[..|stack| - 1]) + Weight(rules, stack[|stack| - 1].level)
  }

  /** The union of the finds under the cells still on the stack. */
  function StackFound(rules: seq<Rule>, cached: map<CellId, nat>, side: int, stack: seq<CellId>): set<CellId>
    requires WellFormed(rules) && IsEdgeCode(side)
  {
    if stack == [] then {}
    else StackFound(rules, cached, side, stack[..|stack| - 1]) + Found(rules, cached, side, stack[|stack| - 1])
  }

  function Elements(s: seq<CellId>): set<CellId>
  {
    set x | x in s
  }

  lemma ElementsSnoc(s: seq<CellId>, x: CellId)
    ensures Elements(s + [x]) == Elements(s) + {x}
  {
    assert forall y :: y in s + [x] <==> y in s || y == x;
  }

  lemma StackPush(rules: seq<Rule>, cached: map<CellId, nat>, side: int, stack: seq<CellId>, x: CellId)
    requires WellFormed(rules) && IsEdgeCode(side)
    ensures StackFound(rules, cached, side, stack + [x]) == StackFound(rules, cached, side, stack) + Found(rules, cached, side, x)
    ensures StackWeight(rules, stack + [x]) == StackWeight(rules, stack) + Weight(rules, x.level)
  {
    assert (stack + [x])[..|stack|] == stack;
  }

  /** One child of the inner loop: adjacent children that are cached go to
      the result list, the others onto the stack. */
  lemma ChildStep(rules: seq<Rule>, cached: map<CellId, nat>, side: int, top: CellId, k: nat)
    requires WellFormed(rules) && IsEdgeCode(side) && top.level < |rules|
    requires k < rules[top.level].sw * rules[top.level].sh
    ensures var r := rules[top.level];
      var x := ChildCell(rules, top, k);
      FoundFrom(rules, cached, side, top, k) ==
        (if !AdjacentCheck(side, k, r.sw, r.sh) then {}
         else if x in cached then {x}
         else Below(rules, cached, side, x))
        + FoundFrom(rules, cached, side, top, k + 1)
  {
  }

  lemma WeightStep(rules: seq<Rule>, level: nat)
    requires WellFormed(rules) && level < |rules|
    ensures Weight(rules, level) == 1 + rules[level].sw * rules[level].sh * Weight(rules, level + 1)
  {
  }

  lemma BudgetStep(w: nat, k: nat)
    ensures (k + 1) * w == k * w + w
  {
  }

  /** What is still to be found while the children of `top` are scanned:
      the result list, the stack and the children from local id k on. */
  function Pending(rules: seq<Rule>, cached: map<CellId, nat>, side: int, top: CellId, k: nat,
                   adj: seq<CellId>, stack: seq<CellId>): set<CellId>
    requires WellFormed(rules) && IsEdgeCode(side) && top.level < |rules|
    requires k <= rules[top.level].sw * rules[top.level].sh
  {
    Elements(adj) + StackFound(rules, cached, side, stack) + FoundFrom(rules, cached, side, top, k)
  }

  /** A child the adjacency predicate rejects changes nothing. */
  lemma SkipChild(rules: seq<Rule>, cached: map<CellId, nat>, side: int, top: CellId, k: nat,
                  adj: seq<CellId>, stack: seq<CellId>)
    requires WellFormed(rules) && IsEdgeCode(side) && top.level < |rules|
    requires k < rules[top.level].sw * rules[top.level].sh
    requires !AdjacentCheck(side, k, rules[top.level].sw, rules[top.level].sh)
    ensures Pending(rules, cached, side, top, k + 1, adj, stack) == Pending(rules, cached, side, top, k, adj, stack)
  {
    ChildStep(rules, cached, side, top, k);
  }

  /** An adjacent cached child joins the result list. */
  lemma CollectChild(rules: seq<Rule>, cached: map<CellId, nat>, side: int, top: CellId, k: nat,
                     adj: seq<CellId>, stack: seq<CellId>)
    requires WellFormed(rules) && IsEdgeCode(side) && top.level < |rules|
    requires k < rules[top.level].sw * rules[top.level].sh
    requires AdjacentCheck(side, k, rules[top.level].sw, rules[top.level].sh)
    requires ChildCell(rules, top, k) in cached
    ensures Pending(rules, cached, side, top, k + 1, adj + [ChildCell(rules, top, k)], stack) ==
      Pending(rules, cached, side, top, k, adj, stack)
  {
    ChildStep(rules, cached, side, top, k);
    ElementsSnoc(adj, ChildCell(rules, top, k));
  }

  /** An adjacent uncached child goes onto the stack. */
  lemma PushChild(rules: seq<Rule>, cached: map<CellId, nat>, side: int, top: CellId, k: nat,
                  adj: seq<CellId>, stack: seq<CellId>)
    requires WellFormed(rules) && IsEdgeCode(side) && top.level < |rules|
    requires k < rules[top.level].sw * rules[top.level].sh
    requires AdjacentCheck(side, k, rules[top.level].sw, rules[top.level].sh)
    requires ChildCell(rules, top, k) !in cached
    ensures Pending(rules, cached, side, top, k + 1, adj, stack + [ChildCell(rules, top, k)]) ==
      Pending(rules, cached, side, top, k, adj, stack)
    ensures StackWeight(rules, stack + [ChildCell(rules, top, k)]) == StackWeight(rules, stack) + Weight(rules, top.level + 1)
  {
    ChildStep(rules, cached, side, top, k);
    StackPush(rules, cached, side, stack, ChildCell(rules, top, k));
  }

  /** One iteration of the inner `for` loop: the child with local id k. */
  method ScanChild(g: GridCache, rules: seq<Rule>, side: int, top: CellId, k: nat, kid: nat,
                   stack0: seq<CellId>, adj0: seq<CellId>)
    returns (stack: seq<CellId>, adj: seq<CellId>)
    requires WellFormed(rules) && IsEdgeCode(side) && top.level < |rules|
    requires k < rules[top.level].sw * rules[top.level].sh
    requires CellId(top.level + 1, kid) == ChildCell(rules, top, k)
    requires forall x :: x in stack0 ==> x !in g.index
    requires forall x :: x in adj0 ==> x in g.index
    ensures forall x :: x in stack ==> x !in g.index
    ensures forall x :: x in adj ==> x in g.index
    ensures Pending(rules, g.index, side, top, k + 1, adj, stack) == Pending(rules, g.index, side, top, k, adj0, stack0)
    ensures StackWeight(rules, stack) <= StackWeight(rules, stack0) + Weight(rules, top.level + 1)
  {
    stack, adj := stack0, adj0;
    var sw, sh := rules[top.level].sw, rules[top.level].sh;
    if AdjacentCheck(side, k, sw, sh) {
      var child := CellId(top.level + 1, kid);
      if g.HasCell(child) {
        CollectChild(rules, g.index, side, top, k, adj, stack);
        adj := adj + [child];
      } else {
        PushChild(rules, g.index, side, top, k, adj, stack);
        stack := stack + [child];
      }
    } else {
      SkipChild(rules, g.index, side, top, k, adj, stack);
    }
  }

  /** The inner `for` loop over the children of a popped cell. */
  method PushChildren(g: GridCache, rules: seq<Rule>, levelInfo: seq<Dims>, side: int,
                      top: CellId, stack0: seq<CellId>, adj0: seq<CellId>)
    returns (stack: seq<CellId>, adj: seq<CellId>)
    requires LevelTable(rules, levelInfo) && IsEdgeCode(side) && top.level < |rules|
    requires forall x :: x in stack0 ==> x !in g.index
    requires forall x :: x in adj0 ==> x in g.index
    ensures forall x :: x in stack ==> x !in g.index
    ensures forall x :: x in adj ==> x in g.index
    ensures Elements(adj) + StackFound(rules, g.index, side, stack) ==
      Elements(adj0) + StackFound(rules, g.index, side, stack0) + FoundFrom(rules, g.index, side, top, 0)
    ensures StackWeight(rules, stack) < StackWeight(rules, stack0) + Weight(rules, top.level)
  {
    var kids := ChildrenGlobalIds(top.level, top.gid, levelInfo, rules);
    ghost var w := Weight(rules, top.level + 1);
    ghost var goal := Pending(rules, g.index, side, top, 0, adj0, stack0);
    ghost var base := StackWeight(rules, stack0);
    stack, adj := stack0, adj0;
    var k := 0;
    while k < |kids|
      invariant 0 <= k <= |kids| == rules[top.level].sw * rules[top.level].sh
      invariant forall x :: x in stack ==> x !in g.index
      invariant forall x :: x in adj ==> x in g.index
      invariant Pending(rules, g.index, side, top, k, adj, stack) == goal
      invariant StackWeight(rules, stack) <= base + k * w
    {
      BudgetStep(w, k);
      assert CellId(top.level + 1, kids[k]) == ChildCell(rules, top, k);
      stack, adj := ScanChild(g, rules, side, top, k, kids[k], stack, adj);
      k := k + 1;
    }
    assert Pending(rules, g.index, side, top, |kids|, adj, stack) == Elements(adj) + StackFound(rules, g.index, side, stack);
    WeightStep(rules, top.level);
  }

  /** The `while cell_stack` search from an uncached neighbour: the list of
      its cached descendants along the shared side. */
  method SearchDescendants(g: GridCache, rules: seq<Rule>, levelInfo: seq<Dims>, nbr: CellId, side: int)
    returns (adj: seq<CellId>)
    requires LevelTable(rules, levelInfo) && IsEdgeCode(side) && nbr !in g.index
    ensures forall x :: x in adj ==> x in g.index
    ensures Elements(adj) == Found(rules, g.index, side, nbr)
  {
    ghost var target := Found(rules, g.index, side, nbr);
    adj := [];
    var stack: seq<CellId> := [nbr];
    assert StackFound(rules, g.index, side, stack) == target by {
      StackPush(rules, g.index, side, [], nbr);
    }
    while |stack| > 0
      invariant forall x :: x in stack ==> x !in g.index
      invariant forall x :: x in adj ==> x in g.index
      invariant Elements(adj) + StackFound(rules, g.index, side, stack) == target
      decreases StackWeight(rules, stack)
    {
      var top := stack[|stack| - 1];
      assert stack == stack[..|stack| - 1] + [top];
      StackPush(rules, g.index, side, stack[..|stack| - 1], top);
      stack := stack[..|stack| - 1];
      if top.level >= |rules| {
        continue;
      }
      stack, adj := PushChildren(g, rules, levelInfo, side, top, stack, adj);
    }
  }

  /** `_find_neighbours_along_edge`: record the neighbour across side `code`
      of `cell` when it is cached, else every cached descendant of it along
      the shared side. */
  method FindNeighboursAlongEdge(g: GridCache, rules: seq<Rule>, levelInfo: seq<Dims>,
                                 cell: CellId, nbr: CellId, code: int, side: int)
    requires g.Valid() && LevelTable(rules, levelInfo)
    requires cell in g.index && IsEdgeCode(code) && IsEdgeCode(side)
    modifies g
    ensures g.Valid()
    ensures g.edges == old(g.edges) && g.fractCoords == old(g.fractCoords)
    ensures Added(old(g.neighbours), g.neighbours, g.index[cell], code, Positions(g.index, Found(rules, g.index, side, nbr)))
  {
    ghost var t0 := g.neighbours;
    var i := g.index[cell];
    if g.HasCell(nbr) {
      UpdateCellNeighbour(g, cell, nbr, code);
      AddedSingle(t0, i, code, g.index[nbr]);
      assert Positions(g.index, {nbr}) == {g.index[nbr]};
      return;
    }
    var adj := SearchDescendants(g, rules, levelInfo, nbr, side);
    AddedNone(t0, i, code);
    assert Positions(g.index, Elements(adj[..0])) == {};
    var n := 0;
    while n < |adj|
      invariant 0 <= n <= |adj|
      invariant g.Valid() && g.edges == old(g.edges) && g.fractCoords == old(g.fractCoords)
      invariant Added(t0, g.neighbours, i, code, Positions(g.index, Elements(adj[..n])))
    {
      assert adj[..n + 1] == adj[..n] + [adj[n]];
      PositionsSnoc(g.index, adj[..n], adj[n]);
      AddedStep(t0, g.neighbours, i, code, Positions(g.index, Elements(adj[..n])), g.index[adj[n]]);
      UpdateCellNeighbour(g, cell, adj[n], code);
      n := n + 1;
    }
    assert adj[..|adj|] == adj;
  }

  // ---------------------------------------------------------------------
  // All cells, all four sides

  /** The same-level cell `_find_cell_neighbours` looks at across side
      `side` of c, if it lies inside the level. */
  function SideCell(levelInfo: seq<Dims>, c: CellId, side: int): Option<CellId>
    requires IsEdgeCode(side) && c.level < |levelInfo| && levelInfo[c.level].width > 0
  {
    var cols, rows := levelInfo[c.level].width, levelInfo[c.level].height;
    var (du, dv) := SideOffset(side);
    CellFromUv(c.level, cols, rows, c.gid % cols + du, c.gid / cols + dv, |levelInfo|)
  }

  /** The positions recorded as side-`side` neighbours of c. */
  function SideFound(rules: seq<Rule>, levelInfo: seq<Dims>, cached: map<CellId, nat>, c: CellId, side: int): set<nat>
    requires LevelTable(rules, levelInfo) && IsEdgeCode(side) && c.level < |levelInfo|
  {
    DimsPositive(rules, c.level);
    match SideCell(levelInfo, c, side)
    case None => {}
    case Some(nbr) => Positions(cached, Found(rules, cached, side, nbr))
  }

  function SideSets(rules: seq<Rule>, levelInfo: seq<Dims>, cached: map<CellId, nat>, c: CellId): (sets: seq<set<nat>>)
    requires LevelTable(rules, levelInfo) && c.level < |levelInfo|
    ensures |sets| == 4
  {
    seq(4, side requires 0 <= side < 4 => SideFound(rules, levelInfo, cached, c, side))
  }

  /** t1 is t0 after sides 0 .. m-1 of the cell at position i were searched,
      side e having found the positions sets[e]. */
  ghost predicate AddedUpTo(t0: seq<seq<set<nat>>>, t1: seq<seq<set<nat>>>, i: nat, sets: seq<set<nat>>, m: nat)
    requires Table(t0, |t0|) && |sets| == 4
  {
    && Table(t1, |t0|)
    && forall k: nat, e: nat, x: nat {:trigger x in t1[k][e]} {:trigger x in t0[k][e]} :: k < |t0| && e < 4 ==>
         (x in t1[k][e] <==>
            || x in t0[k][e]
            || (k == i && e < m && x in sets[e])
            || (x == i && 0 <= ToggleCode(e) < m && k in sets[ToggleCode(e)]))
  }

  lemma AddedUpToStep(t0: seq<seq<set<nat>>>, t1: seq<seq<set<nat>>>, t2: seq<seq<set<nat>>>,
                      i: nat, sets: seq<set<nat>>, m: nat)
    requires Table(t0, |t0|) && |sets| == 4 && m < 4
    requires AddedUpTo(t0, t1, i, sets, m)
    requires Added(t1, t2, i, m, sets[m])
    ensures AddedUpTo(t0, t2, i, sets, m + 1)
  {
    forall k: nat, e: nat, x: nat | k < |t0| && e < 4
      ensures x in t2[k][e] <==>
        || x in t0[k][e]
        || (k == i && e < m + 1 && x in sets[e])
        || (x == i && 0 <= ToggleCode(e) < m + 1 && k in sets[ToggleCode(e)])
    {
      assert e == ToggleCode(m) <==> ToggleCode(e) == m;
      assert x in t2[k][e] <==> x in t1[k][e] || (k == i && e == m && x in sets[m]) || (x == i && e == ToggleCode(m) && k in sets[m]);
      assert x in t1[k][e] <==>
        || x in t0[k][e]
        || (k == i && e < m && x in sets[e])
        || (x == i && 0 <= ToggleCode(e) < m && k in sets[ToggleCode(e)]);
    }
  }

  /** One of the four `_find_neighbours_along_edge` calls of
      `_find_cell_neighbours`. */
  method FindSide(g: GridCache, rules: seq<Rule>, levelInfo: seq<Dims>, cell: CellId,
                  cols: nat, rows: nat, side: int)
    requires g.Valid() && LevelTable(rules, levelInfo)
    requires cell in g.index && cell.level < |levelInfo| && IsEdgeCode(side)
    requires cols == levelInfo[cell.level].width && rows == levelInfo[cell.level].height
    modifies g
    ensures g.Valid()
    ensures g.edges == old(g.edges) && g.fractCoords == old(g.fractCoords)
    ensures Added(old(g.neighbours), g.neighbours, g.index[cell], side, SideFound(rules, levelInfo, g.index, cell, side))
  {
    DimsPositive(rules, cell.level);
    var (du, dv) := SideOffset(side);
    var nbr := CellFromUv(cell.level, cols, rows, cell.gid % cols + du, cell.gid / cols + dv, |levelInfo|);
    assert nbr == SideCell(levelInfo, cell, side);
    if nbr.Some? {
      FindNeighboursAlongEdge(g, rules, levelInfo, cell, nbr.value, side, side);
    } else {
      AddedNone(g.neighbours, g.index[cell], side);
    }
  }

  /** The loop body of `_find_cell_neighbours` for one cell: north, west,
      south and east in that order. */
  method FindCellSides(g: GridCache, rules: seq<Rule>, levelInfo: seq<Dims>, cell: CellId)
    requires g.Valid() && LevelTable(rules, levelInfo)
    requires cell in g.index && cell.level < |levelInfo|
    modifies g
    ensures g.Valid()
    ensures g.edges == old(g.edges) && g.fractCoords == old(g.fractCoords)
    ensures AddedUpTo(old(g.neighbours), g.neighbours, g.index[cell], SideSets(rules, levelInfo, g.index, cell), 4)
  {
    ghost var t0 := g.neighbours;
    ghost var sets := SideSets(rules, levelInfo, g.index, cell);
    ghost var i := g.index[cell];
    var cols := levelInfo[cell.level].width;
    var rows := levelInfo[cell.level].height;
    ghost var t := g.neighbours;
    FindSide(g, rules, levelInfo, cell, cols, rows, NORTH);
    AddedUpToStep(t0, t, g.neighbours, i, sets, 0);
    t := g.neighbours;
    FindSide(g, rules, levelInfo, cell, cols, rows, WEST);
    AddedUpToStep(t0, t, g.neighbours, i, sets, 1);
    t := g.neighbours;
    FindSide(g, rules, levelInfo, cell, cols, rows, SOUTH);
    AddedUpToStep(t0, t, g.neighbours, i, sets, 2);
    t := g.neighbours;
    FindSide(g, rules, levelInfo, cell, cols, rows, EAST);
    AddedUpToStep(t0, t, g.neighbours, i, sets, 3);
  }

  /** Every cell of the array lies at a level of the level table. */
  predicate InLevels(levelInfo: seq<Dims>, cells: seq<CellId>, cached: map<CellId, nat>)
  {
    forall c :: c in cells ==> c.level < |levelInfo| && c in cached
  }

  /** x is recorded as a side-e neighbour of position k once the first n
      cells of the array were processed. */
  ghost predicate Recorded(rules: seq<Rule>, levelInfo: seq<Dims>, cells: seq<CellId>, cached: map<CellId, nat>,
                           n: nat, k: nat, e: nat, x: nat)
    requires LevelTable(rules, levelInfo) && InLevels(levelInfo, cells, cached) && n <= |cells| && e < 4
  {
    && n > 0
    && var c := cells[n - 1];
       || Recorded(rules, levelInfo, cells, cached, n - 1, k, e, x)
       || (k == cached[c] && x in SideFound(rules, levelInfo, cached, c, e))
       || (x == cached[c] && k in SideFound(rules, levelInfo, cached, c, ToggleCode(e)))
  }

  /** `_find_cell_neighbours`: every cell of the array, in array order. The
      source indexes `meta_level_info[level]`, so every cell must lie at a
      level of the table. */
  method FindCellNeighbours(g: GridCache, rules: seq<Rule>, levelInfo: seq<Dims>)
    requires g.Valid() && LevelTable(rules, levelInfo)
    requires forall c :: c in g.cells ==> c.level < |levelInfo|
    modifies g
    ensures g.Valid()
    ensures g.edges == old(g.edges) && g.fractCoords == old(g.fractCoords)
    ensures forall k: nat, e: nat, x: nat :: k < g.size && e < 4 ==>
      (x in g.neighbours[k][e] <==>
         x in old(g.neighbours)[k][e] || Recorded(rules, levelInfo, g.cells, g.index, g.size, k, e, x))
  {
    ghost var t0 := g.neighbours;
    var n := 0;
    while n < g.size
      invariant 0 <= n <= g.size
      invariant g.Valid() && g.edges == old(g.edges) && g.fractCoords == old(g.fractCoords)
      invariant forall k: nat, e: nat, x: nat :: k < g.size && e < 4 ==>
        (x in g.neighbours[k][e] <==> x in t0[k][e] || Recorded(rules, levelInfo, g.cells, g.index, n, k, e, x))
    {
      var cell := g.cells[n];
      ghost var t := g.neighbours;
      FindCellSides(g, rules, levelInfo, cell);
      RecordedStep(rules, levelInfo, g.cells, g.index, t0, t, g.neighbours, n);
      n := n + 1;
    }
  }

  lemma RecordedStep(rules: seq<Rule>, levelInfo: seq<Dims>, cells: seq<CellId>, cached: map<CellId, nat>,
                     t0: seq<seq<set<nat>>>, t: seq<seq<set<nat>>>, t1: seq<seq<set<nat>>>, n: nat)
    requires LevelTable(rules, levelInfo) && InLevels(levelInfo, cells, cached) && n < |cells|
    requires Table(t0, |t0|) && Table(t, |t0|)
    requires forall k: nat, e: nat, x: nat :: k < |t0| && e < 4 ==>
      (x in t[k][e] <==> x in t0[k][e] || Recorded(rules, levelInfo, cells, cached, n, k, e, x))
    requires AddedUpTo(t, t1, cached[cells[n]], SideSets(rules, levelInfo, cached, cells[n]), 4)
    ensures Table(t1, |t0|)
    ensures forall k: nat, e: nat, x: nat :: k < |t0| && e < 4 ==>
      (x in t1[k][e] <==> x in t0[k][e] || Recorded(rules, levelInfo, cells, cached, n + 1, k, e, x))
  {
    var c := cells[n];
    var sets := SideSets(rules, levelInfo, cached, c);
    forall k: nat, e: nat, x: nat | k < |t0| && e < 4
      ensures x in t1[k][e] <==> x in t0[k][e] || Recorded(rules, levelInfo, cells, cached, n + 1, k, e, x)
    {
      assert x in t1[k][e] <==>
        || x in t[k][e]
        || (k == cached[c] && e < 4 && x in sets[e])
        || (x == cached[c] && 0 <= ToggleCode(e) < 4 && k in sets[ToggleCode(e)]);
      assert sets[e] == SideFound(rules, levelInfo, cached, c, e);
      assert sets[ToggleCode(e)] == SideFound(rules, levelInfo, cached, c, ToggleCode(e));
    }
  }

  /** With the array the sorted, repeat-free key list, position i holds
      cells[i]: x is a side-e neighbour of k exactly when the search across
      side e of cell k found x, or the search across the opposite side of
      cell x found k. */
  lemma {:induction false} RecordedExact(rules: seq<Rule>, levelInfo: seq<Dims>, cells: seq<CellId>,
                                         n: nat, k: nat, e: nat, x: nat)
    requires LevelTable(rules, levelInfo) && StrictlySorted(cells)
    requires InLevels(levelInfo, cells, IndexMap(cells)) && n <= |cells| && e < 4
    ensures Recorded(rules, levelInfo, cells, IndexMap(cells), n, k, e, x) <==>
      || (k < n && x in SideFound(rules, levelInfo, IndexMap(cells), cells[k], e))
      || (x < n && k in SideFound(rules, levelInfo, IndexMap(cells), cells[x], ToggleCode(e)))
  {
    if n > 0 {
      RecordedExact(rules, levelInfo, cells, n - 1, k, e, x);
      IndexMapInverts(cells, n - 1);
    }
  }
}
