/** Level geometry of the quadtree-like grid: per-level subdivision rules,
    the column/row count of every level, and the row-major index maths that
    relates a cell to its parent and its children (server/crms/patch/patch.py
    and server/templates/grid/hooks.py share these formulas). */
module Geometry {

  /** `subdivide_rules[i] == [sw, sh]`: a level-i cell has sw x sh children. */
  datatype Rule = Rule(sw: nat, sh: nat)

  /** `level_info[i] == {'width': width, 'height': height}` */
  datatype Dims = Dims(width: nat, height: nat)

  /** A cell of the grid: `(level, global_id)`, global_id row-major within its level. */
  datatype CellId = CellId(level: nat, gid: nat)

  /** What the rule derivation guarantees: at least the first-level rule, every
      factor positive, and the trailing `[1, 1]` of the deepest level. */
  predicate WellFormed(rules: seq<Rule>)
  {
    && |rules| >= 1
    && rules[|rules| - 1] == Rule(1, 1)
    && forall i :: 0 <= i < |rules| ==> rules[i].sw > 0 && rules[i].sh > 0
  }

  /** The rule list built from the first level's cell counts (the ceil of extent
      over first-level size, given here as integers) and the integer ratios of
      consecutive level sizes, closed by `[1, 1]`. */
  function DeriveRules(first: Rule, ratios: seq<Rule>): (rules: seq<Rule>)
    ensures |rules| == |ratios| + 2
    ensures rules[0] == first && rules[|rules| - 1] == Rule(1, 1)
    ensures forall i :: 0 <= i < |ratios| ==> rules[i + 1] == ratios[i]
  {
    [first] + ratios + [Rule(1, 1)]
  }

  lemma DeriveRulesWellFormed(first: Rule, ratios: seq<Rule>)
    requires first.sw > 0 && first.sh > 0
    requires forall i :: 0 <= i < |ratios| ==> ratios[i].sw > 0 && ratios[i].sh > 0
    ensures WellFormed(DeriveRules(first, ratios))
  {
    var rules := DeriveRules(first, ratios);
    forall i | 0 <= i < |rules| ensures rules[i].sw > 0 && rules[i].sh > 0 {
      if 0 < i < |rules| - 1 { assert rules[i] == ratios[i - 1]; }
    }
  }

  /** Columns of level `level`; level 0 is the 1 x 1 virtual root, and level
      |rules| (one below the deepest real level, reached through the final
      [1, 1] rule) has the deepest level's columns. */
  function Width(rules: seq<Rule>, level: nat): nat
    requires level <= |rules|
  {
    if level == 0 then 1 else Width(rules, level - 1) * rules[level - 1].sw
  }

  function Height(rules: seq<Rule>, level: nat): nat
    requires level <= |rules|
  {
    if level == 0 then 1 else Height(rules, level - 1) * rules[level - 1].sh
  }

  lemma {:induction false} DimsPositive(rules: seq<Rule>, level: nat)
    requires WellFormed(rules) && level <= |rules|
    ensures Width(rules, level) > 0 && Height(rules, level) > 0
  {
    if level > 0 {
      DimsPositive(rules, level - 1);
      MulPositive(Width(rules, level - 1), rules[level - 1].sw);
      MulPositive(Height(rules, level - 1), rules[level - 1].sh);
    }
  }

  /** Number of cells of a level. */
  function CellCount(rules: seq<Rule>, level: nat): nat
    requires level <= |rules|
  {
    Width(rules, level) * Height(rules, level)
  }

  /** A level table that agrees with the rule list: entry l holds the columns
      and rows of level l. */
  predicate LevelTable(rules: seq<Rule>, info: seq<Dims>)
  {
    && WellFormed(rules)
    && |info| == |rules|
    && forall l :: 0 <= l < |rules| ==> info[l] == Dims(Width(rules, l), Height(rules, l))
  }

  /** `level_info` as the constructor's loop fills it: one entry per rule. */
  method BuildLevelInfo(rules: seq<Rule>) returns (info: seq<Dims>)
    ensures |info| == |rules|
    ensures |info| > 0 ==> info[0] == Dims(1, 1)
    ensures forall i :: 0 <= i < |info| - 1 ==>
      info[i + 1].width == info[i].width * rules[i].sw &&
      info[i + 1].height == info[i].height * rules[i].sh
    ensures forall i :: 0 <= i < |info| ==> info[i] == Dims(Width(rules, i), Height(rules, i))
  {
    if |rules| == 0 {
      return [];
    }
    info := [Dims(1, 1)];
    var level := 0;
    while level < |rules| - 1
      invariant 0 <= level <= |rules| - 1
      invariant |info| == level + 1
      invariant forall i :: 0 <= i <= level ==> info[i] == Dims(Width(rules, i), Height(rules, i))
    {
      var rule := rules[level];
      var w := info[level].width * rule.sw;
      var h := info[level].height * rule.sh;
      assert Dims(w, h) == Dims(Width(rules, level + 1), Height(rules, level + 1));
      info := info + [Dims(w, h)];
      level := level + 1;
    }
    forall i | 0 <= i < |info| - 1
      ensures info[i + 1].width == info[i].width * rules[i].sw
      ensures info[i + 1].height == info[i].height * rules[i].sh
    {
      assert info[i + 1] == Dims(Width(rules, i + 1), Height(rules, i + 1));
      assert info[i] == Dims(Width(rules, i), Height(rules, i));
    }
  }

  // ---------------------------------------------------------------------
  // Row-major index maths

  /** Column of a global id within a level of `width` columns. */
  function Col(gid: nat, width: nat): nat
    requires width > 0
  {
    gid % width
  }

  /** Row of a global id within a level of `width` columns. */
  function Row(gid: nat, width: nat): nat
    requires width > 0
  {
    gid / width
  }

  function Gid(col: nat, row: nat, width: nat): nat
  {
    row * width + col
  }

  /** Entry `local` of the children list of the cell at column `col` and row
      `row` of a level with `w` columns, subdivided `sw` x `sh`: local column
      local % sw, local row local / sw, scaled into the child level. */
  function ChildGid(col: nat, row: nat, w: nat, sw: nat, sh: nat, local: nat): nat
    requires sw > 0
  {
    Gid(col * sw + local % sw, row * sh + local / sw, w * sw)
  }

  /** `_get_children_global_ids(level, gid)[local]`. */
  function ChildAt(rules: seq<Rule>, level: nat, gid: nat, local: nat): nat
    requires WellFormed(rules) && level < |rules|
  {
    DimsPositive(rules, level);
    var w := Width(rules, level);
    var r := rules[level];
    ChildGid(Col(gid, w), Row(gid, w), w, r.sw, r.sh, local)
  }

  /** ChildAt over a level width read from a table. */
  lemma ChildAtOf(rules: seq<Rule>, level: nat, gid: nat, local: nat, width: nat)
    requires WellFormed(rules) && level < |rules| && width == Width(rules, level) && width > 0
    ensures ChildAt(rules, level, gid, local) ==
      ChildGid(gid % width, gid / width, width, rules[level].sw, rules[level].sh, local)
  {
  }

  /** The children of `(level, gid)` in local-id order (sw * sh of them). */
  function Children(rules: seq<Rule>, level: nat, gid: nat): (r: seq<nat>)
    requires WellFormed(rules) && level < |rules|
    ensures |r| == rules[level].sw * rules[level].sh
  {
    seq(rules[level].sw * rules[level].sh, k requires 0 <= k => ChildAt(rules, level, gid, k))
  }

  /** The parent id of the cell at column `cu` and row `cv`, for a parent
      level of `pw` columns subdivided `sw` x `sh`. */
  function ParentGid(cu: nat, cv: nat, sw: nat, sh: nat, pw: nat): nat
    requires sw > 0 && sh > 0
  {
    Gid(cu / sw, cv / sh, pw)
  }

  /** `_get_parent_global_id(level, gid)`: the parent at level - 1. The
      source reads `level_info[level]`, so level must be a real level. */
  function Parent(rules: seq<Rule>, level: nat, gid: nat): nat
    requires WellFormed(rules) && 1 <= level < |rules|
  {
    DimsPositive(rules, level);
    var w := Width(rules, level);
    var r := rules[level - 1];
    ParentGid(Col(gid, w), Row(gid, w), r.sw, r.sh, Width(rules, level - 1))
  }

  // ---------------------------------------------------------------------
  // Arithmetic helpers

  lemma MulPositive(a: nat, b: nat)
    requires a > 0 && b > 0
    ensures a * b > 0
  {
  }

  lemma MulBounds(k: int, d: nat)
    ensures k >= 1 ==> k * d >= d
    ensures k <= -1 ==> k * d <= -(d as int)
  {
  }

  lemma MulLessCancel(a: nat, b: nat, w: nat)
    requires a * w < b * w
    ensures a < b
  {
  }

  lemma SameDivMod(i: nat, j: nat, s: nat)
    requires s > 0
    ensures i % s == j % s && i / s == j / s ==> i == j
  {
  }

  lemma DivModOf(q: nat, r: nat, d: nat)
    requires r < d
    ensures (q * d + r) / d == q && (q * d + r) % d == r
  {
    var x := q * d + r;
    var k: int := x / d - q;
    assert k * d == r - x % d;
    MulBounds(k, d);
  }

  lemma RowMajorBound(col: nat, row: nat, w: nat, h: nat)
    requires col < w && row < h
    ensures Gid(col, row, w) < w * h
  {
    assert row * w + col < (row + 1) * w;
    assert (row + 1) * w <= h * w;
  }

  lemma ColRowOfGid(col: nat, row: nat, w: nat)
    requires col < w
    ensures Col(Gid(col, row, w), w) == col && Row(Gid(col, row, w), w) == row
  {
    DivModOf(row, col, w);
  }

  lemma GidOfColRow(gid: nat, w: nat)
    requires w > 0
    ensures Gid(Col(gid, w), Row(gid, w), w) == gid
  {
  }

  lemma RowBound(gid: nat, w: nat, h: nat)
    requires w > 0 && gid < w * h
    ensures Row(gid, w) < h
  {
    assert Row(gid, w) * w <= gid;
    MulLessCancel(Row(gid, w), h, w);
  }

  lemma ScaledBound(x: nat, k: nat, n: nat, local: nat)
    requires x < n && local < k
    ensures x * k + local < n * k
  {
    assert x * k + local < (x + 1) * k;
    assert (x + 1) * k <= n * k;
  }

  lemma QuotientBound(x: nat, d: nat, n: nat)
    requires d > 0 && x < n * d
    ensures x / d < n
  {
    assert (x / d) * d <= x;
    MulLessCancel(x / d, n, d);
  }

  lemma MulLeBoth(a: nat, b: nat, x: nat, y: nat)
    requires a <= b && x <= y
    ensures a * x <= b * y
  {
    assert a * x <= b * x;
    assert b * x <= b * y;
  }

  lemma DivBelow(x: nat, d: nat)
    requires d > 0
    ensures x / d <= x
  {
    assert (x / d) * d <= x;
    MulLeBoth(x / d, x / d, 1, d);
  }

  /** Where child `k` sits in the child level. */
  lemma ChildGidCoords(col: nat, row: nat, w: nat, sw: nat, sh: nat, k: nat)
    requires col < w && sw > 0 && sh > 0 && k < sw * sh
    ensures Col(ChildGid(col, row, w, sw, sh, k), w * sw) == col * sw + k % sw
    ensures Row(ChildGid(col, row, w, sw, sh, k), w * sw) == row * sh + k / sw
    ensures k / sw < sh
  {
    ScaledBound(col, sw, w, k % sw);
    ColRowOfGid(col * sw + k % sw, row * sh + k / sw, w * sw);
    RowBound(k, sw, sh);
  }

  lemma ChildGidBound(col: nat, row: nat, w: nat, h: nat, sw: nat, sh: nat, k: nat)
    requires col < w && row < h && sw > 0 && sh > 0 && k < sw * sh
    ensures ChildGid(col, row, w, sw, sh, k) < (w * sw) * (h * sh)
  {
    RowBound(k, sw, sh);
    ScaledBound(col, sw, w, k % sw);
    ScaledBound(row, sh, h, k / sw);
    RowMajorBound(col * sw + k % sw, row * sh + k / sw, w * sw, h * sh);
  }

  lemma ChildGidInjective(col: nat, row: nat, w: nat, sw: nat, sh: nat, i: nat, j: nat)
    requires col < w && sw > 0 && sh > 0 && i < sw * sh && j < sw * sh
    ensures ChildGid(col, row, w, sw, sh, i) == ChildGid(col, row, w, sw, sh, j) ==> i == j
  {
    ChildGidCoords(col, row, w, sw, sh, i);
    ChildGidCoords(col, row, w, sw, sh, j);
    SameDivMod(i, j, sw);
  }

  lemma ParentOfChildGid(col: nat, row: nat, w: nat, sw: nat, sh: nat, k: nat)
    requires col < w && sw > 0 && sh > 0 && k < sw * sh
    ensures var c := ChildGid(col, row, w, sw, sh, k);
      ParentGid(Col(c, w * sw), Row(c, w * sw), sw, sh, w) == Gid(col, row, w)
  {
    ChildGidCoords(col, row, w, sw, sh, k);
    DivModOf(col, k % sw, sw);
    DivModOf(row, k / sw, sh);
  }

  lemma LocalIdArith(cu: nat, cv: nat, sw: nat, sh: nat)
    requires sw > 0 && sh > 0
    ensures (cv % sh) * sw + cu % sw < sw * sh
    ensures ((cv % sh) * sw + cu % sw) % sw == cu % sw
    ensures ((cv % sh) * sw + cu % sw) / sw == cv % sh
    ensures (cu / sw) * sw + cu % sw == cu && (cv / sh) * sh + cv % sh == cv
  {
    ScaledBound(cv % sh, sw, sh, cu % sw);
    DivModOf(cv % sh, cu % sw, sw);
  }

  /** Cell c of the child level is child (cv % sh) * sw + cu % sw of its parent. */
  lemma ChildOfParentGid(c: nat, w: nat, sw: nat, sh: nat)
    requires w > 0 && sw > 0 && sh > 0
    ensures var cu, cv := Col(c, w * sw), Row(c, w * sw);
      var p := ParentGid(cu, cv, sw, sh, w);
      var k := (cv % sh) * sw + cu % sw;
      && k < sw * sh && Col(p, w) < w
      && ChildGid(Col(p, w), Row(p, w), w, sw, sh, k) == c
  {
    MulPositive(w, sw);
    var cu, cv := Col(c, w * sw), Row(c, w * sw);
    QuotientBound(cu, sw, w);
    ColRowOfGid(cu / sw, cv / sh, w);
    LocalIdArith(cu, cv, sw, sh);
    GidOfColRow(c, w * sw);
  }

  lemma ParentBelowArith(cu: nat, cv: nat, sw: nat, sh: nat, pw: nat)
    requires sw > 0 && sh > 0
    ensures (cv / sh) * pw + cu / sw <= cv * (pw * sw) + cu
  {
    DivBelow(cu, sw);
    DivBelow(cv, sh);
    MulLeBoth(pw, pw, 1, sw);
    MulLeBoth(cv / sh, cv, pw, pw * sw);
  }

  lemma ParentGidBelow(c: nat, pw: nat, sw: nat, sh: nat)
    requires pw > 0 && sw > 0 && sh > 0
    ensures ParentGid(Col(c, pw * sw), Row(c, pw * sw), sw, sh, pw) <= c
  {
    MulPositive(pw, sw);
    ParentBelowArith(Col(c, pw * sw), Row(c, pw * sw), sw, sh, pw);
    GidOfColRow(c, pw * sw);
  }

  // ---------------------------------------------------------------------
  // Parent / children relation

  lemma WidthStep(rules: seq<Rule>, level: nat)
    requires WellFormed(rules) && level < |rules|
    ensures Width(rules, level + 1) == Width(rules, level) * rules[level].sw
    ensures Height(rules, level + 1) == Height(rules, level) * rules[level].sh
    ensures Width(rules, level) > 0 && Height(rules, level) > 0
  {
    DimsPositive(rules, level);
  }

  /** Every child of a cell within its level lies within the child level. */
  lemma ChildInLevel(rules: seq<Rule>, level: nat, gid: nat, k: nat)
    requires WellFormed(rules) && level < |rules|
    requires gid < CellCount(rules, level)
    requires k < rules[level].sw * rules[level].sh
    ensures ChildAt(rules, level, gid, k) < CellCount(rules, level + 1)
  {
    WidthStep(rules, level);
    var w, h, r := Width(rules, level), Height(rules, level), rules[level];
    RowBound(gid, w, h);
    ChildGidBound(Col(gid, w), Row(gid, w), w, h, r.sw, r.sh, k);
  }

  /** Children of one cell are pairwise distinct. */
  lemma ChildrenDistinct(rules: seq<Rule>, level: nat, gid: nat, i: nat, j: nat)
    requires WellFormed(rules) && level < |rules|
    requires i < rules[level].sw * rules[level].sh && j < rules[level].sw * rules[level].sh
    ensures ChildAt(rules, level, gid, i) == ChildAt(rules, level, gid, j) ==> i == j
  {
    WidthStep(rules, level);
    var w, r := Width(rules, level), rules[level];
    ChildGidInjective(Col(gid, w), Row(gid, w), w, r.sw, r.sh, i, j);
  }

  /** The parent of each child is the cell that produced it. */
  lemma ParentOfChild(rules: seq<Rule>, level: nat, gid: nat, k: nat)
    requires WellFormed(rules) && level + 1 < |rules|
    requires k < rules[level].sw * rules[level].sh
    ensures Parent(rules, level + 1, ChildAt(rules, level, gid, k)) == gid
  {
    WidthStep(rules, level);
    var w, r := Width(rules, level), rules[level];
    ParentOfChildGid(Col(gid, w), Row(gid, w), w, r.sw, r.sh, k);
    GidOfColRow(gid, w);
  }

  /** Conversely, a cell of level + 1 is a child of its parent. */
  lemma ChildOfParent(rules: seq<Rule>, level: nat, c: nat)
    requires WellFormed(rules) && level + 1 < |rules|
    ensures c in Children(rules, level, Parent(rules, level + 1, c))
  {
    WidthStep(rules, level);
    var w, r := Width(rules, level), rules[level];
    ChildOfParentGid(c, w, r.sw, r.sh);
    var p := Parent(rules, level + 1, c);
    var k := (Row(c, w * r.sw) % r.sh) * r.sw + Col(c, w * r.sw) % r.sw;
    assert Children(rules, level, p)[k] == c;
  }

  lemma ParentBelow(rules: seq<Rule>, level: nat, c: nat)
    requires WellFormed(rules) && 1 <= level < |rules|
    ensures Parent(rules, level, c) <= c
  {
    WidthStep(rules, level - 1);
    var r := rules[level - 1];
    ParentGidBelow(c, Width(rules, level - 1), r.sw, r.sh);
  }
}
