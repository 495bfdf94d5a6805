/** The `Patch` object of server/crms/patch/patch.py. Its rule list and level
    table are fixed when it is built; its cell table is changed in place by
    subdivide, merge, delete and restore. Each method is proved against the
    store function of the PatchStore module that says what it computes. */
module PatchTable {
  import opened Bytes
  import opened Geometry
  import opened Wrappers
  import opened PatchStore

  /** `a[from:from + |xs|] = xs`: a slice assignment into a numpy array. */
  method WriteSlice(a: array<CellId>, from: nat, xs: seq<CellId>)
    requires from + |xs| <= a.Length
    modifies a
    ensures forall t :: 0 <= t < a.Length ==>
      a[t] == if from <= t < from + |xs| then xs[t - from] else old(a[t])
  {
    var j := 0;
    while j < |xs|
      invariant 0 <= j <= |xs|
      invariant forall t :: 0 <= t < a.Length ==>
        a[t] == if from <= t < from + j then xs[t - from] else old(a[t])
    {
      a[from + j] := xs[j];
      j := j + 1;
    }
  }

  lemma SliceAfterWrite(before: seq<CellId>, after: seq<CellId>, from: nat, xs: seq<CellId>)
    requires |before| == |after| && from + |xs| <= |after|
    requires forall t :: 0 <= t < |after| ==>
      after[t] == if from <= t < from + |xs| then xs[t - from] else before[t]
    ensures after[..from + |xs|] == before[..from] + xs
  {
    assert forall t :: 0 <= t < from + |xs| ==> after[..from + |xs|][t] == (before[..from] + xs)[t];
  }

  /** One more input of the candidate loop. */
  lemma CandidatesStep(rules: seq<Rule>, cs: seq<CellId>, i: nat)
    requires WellFormed(rules) && InRange(cs) && i < |cs|
    requires MergeInputOk(rules, cs[..i]) && cs[i].level >= 1 && !MergeBad(rules, cs[i])
    ensures InRange(cs[..i + 1]) && MergeInputOk(rules, cs[..i + 1])
    ensures cs[i].level >= 2 ==>
      MergeCandidates(rules, cs[..i + 1]) ==
        MergeCandidates(rules, cs[..i]) + [CellId(cs[i].level - 1, Parent(rules, cs[i].level, cs[i].gid))]
    ensures cs[i].level == 1 ==> MergeCandidates(rules, cs[..i + 1]) == MergeCandidates(rules, cs[..i])
  {
    var c := cs[i];
    assert cs[..i + 1] == cs[..i] + [c];
    assert forall x :: x in cs[..i + 1] ==> x in cs;
    if c.level >= 2 {
      MergeCandidatesStep(rules, cs[..i], c);
    } else {
      assert cs[..i + 1][..i] == cs[..i];
    }
  }

  /** `Counter(parent_candidates)`: its keys in first-occurrence order and
      its counts. */
  method CountParents(cands: seq<CellId>) returns (order: seq<CellId>, counts: multiset<CellId>)
    ensures order == Distinct(cands) && counts == multiset(cands)
  {
    order := [];
    counts := multiset{};
    var i := 0;
    while i < |cands|
      invariant 0 <= i <= |cands|
      invariant order == Distinct(cands[..i]) && counts == multiset(cands[..i])
    {
      assert cands[..i + 1][..i] == cands[..i];
      assert cands[..i + 1] == cands[..i] + [cands[i]];
      if cands[i] !in order {
        order := order + [cands[i]];
      }
      counts := counts + multiset{cands[i]};
      i := i + 1;
    }
    assert cands[..i] == cands;
  }

  /** The keys collected beside the activated parents are theirs. */
  lemma KeysOfCells(cs: seq<CellId>, keys: seq<nat>)
    requires InRange(cs) && |keys| == |cs|
    requires forall j :: 0 <= j < |cs| ==> keys[j] == Key(cs[j])
    ensures (set k | k in keys) == KeySet(cs)
  {
    forall k | k in KeySet(cs) ensures k in keys {
      var c :| c in cs && c.level < U32_LIMIT && c.gid < U32_LIMIT && k == Key(c);
      var j :| 0 <= j < |cs| && cs[j] == c;
      assert keys[j] == k;
    }
    forall k | k in keys ensures k in KeySet(cs) {
      var j :| 0 <= j < |keys| && keys[j] == k;
      assert cs[j] in cs;
    }
  }

  /** Children of a real cell that has a rule are real cells. */
  lemma ChildrenInGrid(rules: seq<Rule>, p: CellId)
    requires RulesOk(rules) && InGrid(rules, p) && p.level < |rules|
    ensures InRange(ChildrenOf(rules, p))
    ensures forall c :: c in ChildrenOf(rules, p) ==> InGrid(rules, c)
  {
    AllChildrenSingle(rules, p);
    AllChildrenInGrid(rules, [p]);
  }

  /** The cells of one level with the given ids. */
  function AtLevel(level: nat, gids: seq<nat>): (cs: seq<CellId>)
    ensures |cs| == |gids| && forall t :: 0 <= t < |gids| ==> cs[t] == CellId(level, gids[t])
  {
    seq(|gids|, t requires 0 <= t < |gids| => CellId(level, gids[t]))
  }

  /** One parent of the filling pass: its children written after those of
      the parents before it extend the filled prefix. */
  lemma FillStep(rules: seq<Rule>, ps: seq<CellId>, i: nat, filled: nat, before: seq<CellId>, after: seq<CellId>)
    requires WellFormed(rules) && forall p :: p in ps ==> p.level < |rules|
    requires i < |ps| && filled == ChildCount(rules, ps[..i])
    requires |before| == |after| && filled <= |before| && before[..filled] == AllChildren(rules, ps[..i])
    requires filled + |ChildrenOf(rules, ps[i])| <= |after|
    requires var xs := AtLevel(ps[i].level + 1, Children(rules, ps[i].level, ps[i].gid));
      forall t :: 0 <= t < |after| ==>
        after[t] == if filled <= t < filled + |xs| then xs[t - filled] else before[t]
    ensures filled + |ChildrenOf(rules, ps[i])| == ChildCount(rules, ps[..i + 1])
    ensures after[..ChildCount(rules, ps[..i + 1])] == AllChildren(rules, ps[..i + 1])
  {
    var p := ps[i];
    var xs := AtLevel(p.level + 1, Children(rules, p.level, p.gid));
    assert xs == ChildrenOf(rules, p);
    SliceAfterWrite(before, after, filled, xs);
    AllChildrenStep(rules, ps, i);
    ChildCountStep(rules, ps, i);
  }

  class Patch {
    /** `subdivide_rules`, closed by [1, 1]. */
    const rules: seq<Rule>
    /** `level_info`: the columns and rows of levels 0 .. |rules| - 1. */
    const levelInfo: seq<Dims>
    /** The cell table: packed key to (deleted, activate). */
    var cells: map<nat, CellState>

    /** The level table agrees with the rule list. */
    ghost predicate LevelsOk()
    {
      LevelTable(rules, levelInfo)
    }

    ghost predicate Valid()
      reads this
    {
      LevelsOk() && StoreOk(rules, cells)
    }

    /** The constructor's rule derivation and `level_info` loop (lines 56-91),
        with the cell table as `_initialize_default` builds it when no file
        was saved (lines 108-129). */
    constructor (first: Rule, ratios: seq<Rule>)
      requires first.sw > 0 && first.sh > 0
      requires forall i :: 0 <= i < |ratios| ==> ratios[i].sw > 0 && ratios[i].sh > 0
      requires |ratios| + 2 < U8_LIMIT
      requires forall l :: 0 <= l <= |ratios| + 2 ==> CellCount(DeriveRules(first, ratios), l) <= U32_LIMIT
      ensures Valid()
      ensures rules == DeriveRules(first, ratios)
      ensures cells == DefaultCells(rules)
    {
      var rs := DeriveRules(first, ratios);
      DeriveRulesWellFormed(first, ratios);
      var info := BuildLevelInfo(rs);
      DefaultStore(rs);
      rules := rs;
      levelInfo := info;
      cells := DefaultCells(rs);
    }

    /** `_get_parent_global_id`, read off `level_info`. */
    function ParentGlobalId(level: nat, gid: nat): (p: nat)
      requires LevelsOk() && 1 <= level < |rules|
      ensures p == Parent(rules, level, gid)
    {
      DimsPositive(rules, level);
      var totalWidth := levelInfo[level].width;
      var rule := rules[level - 1];
      var u, v := gid % totalWidth, gid / totalWidth;
      assert totalWidth == Width(rules, level);
      assert levelInfo[level - 1].width == Width(rules, level - 1);
      assert Parent(rules, level, gid) == ParentGid(u, v, rule.sw, rule.sh, levelInfo[level - 1].width);
      (v / rule.sh) * levelInfo[level - 1].width + u / rule.sw
    }

    /** `_get_children_global_ids`: None for a level without a rule, else the
        ids of the children in local-id order. */
    method ChildrenGlobalIds(level: nat, gid: nat) returns (r: Option<seq<nat>>)
      requires LevelsOk()
      ensures level >= |rules| ==> r == None
      ensures level < |rules| ==> r == Some(Children(rules, level, gid))
    {
      if level >= |levelInfo| {
        return None;
      }
      DimsPositive(rules, level);
      var width := levelInfo[level].width;
      assert width == Width(rules, level);
      var u, v := gid % width, gid / width;
      var rule := rules[level];
      var count := rule.sw * rule.sh;
      var ids := new nat[count];
      var local := 0;
      while local < count
        invariant 0 <= local <= count
        invariant forall j :: 0 <= j < local ==> ids[j] == ChildAt(rules, level, gid, j)
      {
        // column u * sw + local % sw and row v * sh + local / sw of a level
        // width * sw columns wide
        ids[local] := ChildGid(u, v, width, rule.sw, rule.sh, local);
        ChildAtOf(rules, level, gid, local, width);
        local := local + 1;
      }
      assert forall j :: 0 <= j < count ==> ids[..][j] == Children(rules, level, gid)[j];
      assert ids[..] == Children(rules, level, gid);
      return Some(ids[..]);
    }

    /** The existing, activated and not deleted rows among the listed keys, in
        listed order (lines 259-267). */
    method LiveParents(cs: seq<CellId>) returns (parents: seq<CellId>)
      requires InRange(cs)
      ensures parents == ValidParents(cells, cs)
    {
      parents := [];
      var i := 0;
      while i < |cs|
        invariant 0 <= i <= |cs|
        invariant parents == ValidParents(cells, cs[..i])
      {
        var k := EncodeIndex(cs[i].level, cs[i].gid);
        if k in cells && cells[k].activate && !cells[k].deleted {
          parents := parents + [cs[i]];
        }
        assert cs[..i + 1][..i] == cs[..i];
        i := i + 1;
      }
      assert cs[..i] == cs;
    }

    /** The counting pass (lines 270-275): `subdivide_rules[level]` raises for
        a parent on the last level. */
    method CountChildren(parents: seq<CellId>) returns (r: Result<nat, PatchError>)
      requires WellFormed(rules)
      ensures r.Ok? <==> forall p :: p in parents ==> p.level < |rules|
      ensures r.Ok? ==> r.value == ChildCount(rules, parents)
    {
      var total := 0;
      var i := 0;
      while i < |parents|
        invariant 0 <= i <= |parents|
        invariant forall j :: 0 <= j < i ==> parents[j].level < |rules|
        invariant total == ChildCount(rules, parents[..i])
      {
        var level := parents[i].level;
        if level >= |rules| {
          assert parents[i] in parents;
          return Err(LevelOutOfRange);
        }
        var rule := rules[level];
        total := total + rule.sw * rule.sh;
        assert parents[..i + 1][..i] == parents[..i];
        i := i + 1;
      }
      assert parents[..i] == parents;
      return Ok(total);
    }

    /** The filling pass (lines 277-295): every child of every parent, parent
        by parent, written into an array of the counted size. */
    method CollectChildren(parents: seq<CellId>, total: nat) returns (all: seq<CellId>)
      requires LevelsOk()
      requires forall p :: p in parents ==> p.level < |rules|
      requires total == ChildCount(rules, parents)
      ensures all == AllChildren(rules, parents)
    {
      var children := new CellId[total];
      var filled := 0;
      var i := 0;
      while i < |parents|
        invariant 0 <= i <= |parents|
        invariant filled == ChildCount(rules, parents[..i]) <= total
        invariant children[..filled] == AllChildren(rules, parents[..i])
      {
        var p := parents[i];
        var ids := ChildrenGlobalIds(p.level, p.gid);
        var levelIds := AtLevel(p.level + 1, ids.value);
        ChildCountPrefix(rules, parents, i + 1);
        ChildCountStep(rules, parents, i);
        ghost var before := children[..];
        WriteSlice(children, filled, levelIds);
        FillStep(rules, parents, i, filled, before, children[..]);
        filled := filled + |levelIds|;
        i := i + 1;
      }
      assert parents[..i] == parents;
      all := children[..];
      assert all == children[..filled];
    }

    /** `subdivide_cells` (lines 240-335). */
    method Subdivide(cs: seq<CellId>) returns (r: Result<seq<CellId>, PatchError>)
      requires Valid() && InRange(cs)
      modifies this
      ensures Valid()
      ensures r == SubdivideResult(rules, old(cells), cs)
      ensures cells == if r.Ok? then SubdivideCells(rules, old(cells), cs) else old(cells)
    {
      if |cs| == 0 {
        SubdivideNoValidParent(rules, cells, cs);
        return Ok([]);
      }
      var parents := LiveParents(cs);
      if |parents| == 0 {
        SubdivideNoValidParent(rules, cells, cs);
        return Ok([]);
      }
      var total := CountChildren(parents);
      if total.Err? {
        return Err(LevelOutOfRange);
      }
      var all := CollectChildren(parents, total.value);
      assert SubdivideResult(rules, cells, cs) == Ok(all);
      ValidParentsInGrid(rules, cells, cs);
      AllChildrenInGrid(rules, parents);
      // existing children are activated and undeleted, new ones appended,
      // then the parents are deactivated
      ghost var before := cells;
      cells := InsertChildren(cells, all);
      cells := DeactivateParents(cells, parents);
      assert cells == SubdivideCells(rules, before, cs);
      return Ok(all);
    }

    /** The candidate loop of `merge_cells` (lines 405-413): level-1 inputs
        are skipped; a deeper input with no level entry raises. */
    method ParentCandidates(cs: seq<CellId>) returns (r: Result<seq<CellId>, PatchError>)
      requires LevelsOk() && InRange(cs)
      requires forall c :: c in cs ==> c.level >= 1
      ensures r.Ok? <==> MergeInputOk(rules, cs)
      ensures r.Ok? ==> r.value == MergeCandidates(rules, cs)
    {
      var cands := [];
      var i := 0;
      while i < |cs|
        invariant 0 <= i <= |cs|
        invariant InRange(cs[..i]) && MergeInputOk(rules, cs[..i])
        invariant cands == MergeCandidates(rules, cs[..i])
      {
        var c := cs[i];
        assert c in cs;
        if c.level >= 2 && c.level >= |levelInfo| {
          return Err(LevelOutOfRange);
        }
        CandidatesStep(rules, cs, i);
        if c.level != 1 {
          cands := cands + [CellId(c.level - 1, ParentGlobalId(c.level, c.gid))];
        }
        i := i + 1;
      }
      assert cs[..i] == cs;
      return Ok(cands);
    }

    /** The loop over `parent_count.items()` (lines 419-428): the parents
        whose count is their group size and whose row exists, with their keys. */
    method FullParents(order: seq<CellId>, counts: multiset<CellId>) returns (act: seq<CellId>, keys: seq<nat>)
      requires LevelsOk() && InRange(order)
      requires forall p :: p in order ==> p.level < |rules|
      ensures act == FullGroups(rules, cells, order, counts)
      ensures |keys| == |act| && forall j :: 0 <= j < |act| ==> keys[j] == Key(act[j])
    {
      act, keys := [], [];
      var i := 0;
      while i < |order|
        invariant 0 <= i <= |order|
        invariant InRange(order[..i]) && forall p :: p in order[..i] ==> p.level < |rules|
        invariant act == FullGroups(rules, cells, order[..i], counts)
        invariant |keys| == |act| && forall j :: 0 <= j < |act| ==> keys[j] == Key(act[j])
      {
        var p := order[i];
        assert p in order;
        assert order[..i + 1][..i] == order[..i];
        assert forall q :: q in order[..i + 1] ==> q in order;
        var rule := rules[p.level];
        var expected := rule.sw * rule.sh;
        if counts[p] == expected {
          var k := EncodeIndex(p.level, p.gid);
          if k in cells {
            keys := keys + [k];
            act := act + [p];
          }
        }
        i := i + 1;
      }
      assert order[..i] == order;
    }

    /** The stored keys among the children of one activated parent (the
        inner loop of lines 440-447). */
    method StoredChildKeys(p: CellId) returns (ks: seq<nat>)
      requires Valid() && InGrid(rules, p) && p.level < |rules|
      ensures InRange(ChildrenOf(rules, p))
      ensures forall k :: k in ks <==> k in cells && k in KeySet(ChildrenOf(rules, p))
    {
      ChildrenInGrid(rules, p);
      var kids := ChildrenOf(rules, p);
      var ids := ChildrenGlobalIds(p.level, p.gid);
      var gids := ids.value;
      ks := [];
      var j := 0;
      while j < |gids|
        invariant 0 <= j <= |gids|
        invariant forall k :: k in ks <==> k in cells && k in KeySet(kids[..j])
      {
        assert kids[j] in kids;
        assert kids[..j + 1] == kids[..j] + [kids[j]];
        KeySetSnoc(kids[..j], kids[j]);
        var k := EncodeIndex(p.level + 1, gids[j]);
        if k in cells {
          ks := ks + [k];
        }
        j := j + 1;
      }
      assert kids[..j] == kids;
    }

    /** `keys_to_delete` (lines 437-447): every stored child key of the
        activated parents. */
    method ExistingChildKeys(act: seq<CellId>) returns (del: seq<nat>)
      requires Valid()
      requires forall p :: p in act ==> InGrid(rules, p) && p.level < |rules|
      ensures forall k :: k in del <==> k in cells && k in KeySet(AllChildren(rules, act))
    {
      del := [];
      var i := 0;
      while i < |act|
        invariant 0 <= i <= |act|
        invariant forall k :: k in del <==> k in cells && k in KeySet(AllChildren(rules, act[..i]))
      {
        var p := act[i];
        assert p in act;
        var ks := StoredChildKeys(p);
        AllChildrenStep(rules, act, i);
        KeySetAppend(AllChildren(rules, act[..i]), ChildrenOf(rules, p));
        del := del + ks;
        i := i + 1;
      }
      assert act[..i] == act;
    }

    /** The two batch updates of `merge_cells` (lines 433-451): activate the
        parents, then drop their stored children. */
    method ActivateAndDrop(cs: seq<CellId>, act: seq<CellId>, keys: seq<nat>)
      requires Valid() && InRange(cs) && MergeInputOk(rules, cs)
      requires act == MergeActivated(rules, cells, cs)
      requires |keys| == |act| && forall j :: 0 <= j < |act| ==> keys[j] == Key(act[j])
      modifies this
      ensures Valid()
      ensures cells == MergeCells(rules, old(cells), cs)
    {
      ghost var m := cells;
      MergeActivatedInGrid(rules, m, cs);
      KeysOfCells(act, keys);
      var activate := set k | k in keys;
      ActivateKeepsStore(rules, m, activate);
      cells := ActivateRows(cells, activate);
      var del := ExistingChildKeys(act);
      var dropped := set k | k in del;
      assert forall k :: k in cells ==> (k in dropped <==> k in KeySet(AllChildren(rules, act)));
      MergeCellsOf(rules, m, cs, activate, dropped);
      DropKeepsStore(rules, cells, dropped);
      cells := DropRows(cells, dropped);
    }

    /** `merge_cells` (lines 389-455). */
    method Merge(cs: seq<CellId>) returns (r: Result<seq<CellId>, PatchError>)
      requires Valid() && InRange(cs)
      requires forall c :: c in cs ==> c.level >= 1
      modifies this
      ensures Valid()
      ensures r.Ok? <==> MergeInputOk(rules, cs)
      ensures r == MergeResult(rules, old(cells), cs)
      ensures cells == if r.Ok? then MergeCells(rules, old(cells), cs) else old(cells)
    {
      var cr := ParentCandidates(cs);
      if cr.Err? {
        return Err(LevelOutOfRange);
      }
      var cands := cr.value;
      var order, counts := CountParents(cands);
      var act, keys := FullParents(order, counts);
      assert act == MergeActivated(rules, cells, cs);
      if |act| == 0 {
        MergeNothingActivated(rules, cells, cs);
        return Ok([]);
      }
      ActivateAndDrop(cs, act, keys);
      return Ok(act);
    }

    /** The listed keys that have a row (`key in self.cache.index`), in
        listed order. */
    method StoredKeys(cs: seq<CellId>) returns (keys: seq<nat>)
      requires InRange(cs)
      ensures forall k :: k in keys <==> k in KeySet(cs) && k in cells
    {
      keys := [];
      var i := 0;
      while i < |cs|
        invariant 0 <= i <= |cs|
        invariant forall k :: k in keys <==> k in KeySet(cs[..i]) && k in cells
      {
        assert cs[i] in cs;
        assert cs[..i + 1] == cs[..i] + [cs[i]];
        KeySetSnoc(cs[..i], cs[i]);
        var k := EncodeIndex(cs[i].level, cs[i].gid);
        if k in cells {
          keys := keys + [k];
        }
        i := i + 1;
      }
      assert cs[..i] == cs;
    }

    /** The activated and not deleted rows among stored keys (the flag mask
        of `delete_cells`). */
    method LiveAmong(keys: seq<nat>) returns (live: seq<nat>)
      requires forall k :: k in keys ==> k in cells
      ensures forall k :: k in live <==> k in keys && Live(cells, k)
    {
      live := [];
      var i := 0;
      while i < |keys|
        invariant 0 <= i <= |keys|
        invariant forall k :: k in live <==> k in keys[..i] && Live(cells, k)
      {
        assert keys[..i + 1] == keys[..i] + [keys[i]];
        var k := keys[i];
        if cells[k].activate && !cells[k].deleted {
          live := live + [k];
        }
        i := i + 1;
      }
      assert keys[..i] == keys;
    }

    /** `delete_cells` (lines 337-358). */
    method Delete(cs: seq<CellId>)
      requires Valid() && InRange(cs)
      modifies this
      ensures Valid()
      ensures cells == DeleteCells(old(cells), cs)
    {
      var existing := StoredKeys(cs);
      if |existing| == 0 {
        DeleteBySetFlags(cells, cs, {});
        SetFlagsNothing(cells, CellState(true, false));
        return;
      }
      var live := LiveAmong(existing);
      if |live| == 0 {
        DeleteBySetFlags(cells, cs, {});
        SetFlagsNothing(cells, CellState(true, false));
        return;
      }
      var ks := set k | k in live;
      DeleteBySetFlags(cells, cs, ks);
      DeleteKeepsStore(rules, cells, cs);
      cells := SetFlags(cells, ks, CellState(true, false));
    }

    /** `restore_cells` (lines 457-476). */
    method Restore(cs: seq<CellId>)
      requires Valid() && InRange(cs)
      modifies this
      ensures Valid()
      ensures cells == RestoreCells(old(cells), cs)
    {
      if |cs| == 0 {
        RestoreBySetFlags(cells, cs, {});
        SetFlagsNothing(cells, CellState(false, true));
        return;
      }
      var existing := StoredKeys(cs);
      if |existing| == 0 {
        RestoreBySetFlags(cells, cs, {});
        SetFlagsNothing(cells, CellState(false, true));
        return;
      }
      var ks := set k | k in existing;
      RestoreBySetFlags(cells, cs, ks);
      DeleteKeepsStore(rules, cells, cs);
      cells := SetFlags(cells, ks, CellState(false, true));
    }

    /** `get_activated_cell_infos` (lines 478-488) on the table in memory:
        exactly the real cells whose row is activated. */
    function ActivatedCellInfos(): (r: set<CellId>)
      reads this
      requires Valid()
      ensures forall c :: c in r <==>
        InGrid(rules, c) && c.level < U32_LIMIT && c.gid < U32_LIMIT && Key(c) in cells && cells[Key(c)].activate
    {
      ActivatedOfAll(rules, cells);
      ActivatedOf(cells)
    }

    /** `get_deleted_cell_infos` (lines 490-499) on the table in memory:
        exactly the real cells whose row is deleted. */
    function DeletedCellInfos(): (r: set<CellId>)
      reads this
      requires Valid()
      ensures forall c :: c in r <==>
        InGrid(rules, c) && c.level < U32_LIMIT && c.gid < U32_LIMIT && Key(c) in cells && cells[Key(c)].deleted
    {
      DeletedOfAll(rules, cells);
      DeletedOf(cells)
    }
  }
}
