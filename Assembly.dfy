/** The key-set stage of the meta-grid assembly in
    server/templates/grid/hooks.py: activated patch cells remapped into the
    meta grid (`_update_cells_by_patch`), the ancestor chain of a key
    (`_get_all_ancestor_keys`) and the removal of every key that has an
    activated descendant (the conflict filter of `assembly`). Keys are the
    9-byte '!BQ' encodings of CellKey. */
module Assembly {
  import opened Wrappers
  import opened Bytes
  import opened Geometry
  import opened CellKey

  /** A key as `_encode_cell_key` produces it. */
  type Key = s: seq<Byte> | |s| == 9 witness [0, 0, 0, 0, 0, 0, 0, 0, 0]

  /** `key[0]`, the level byte, is the decoded level. */
  lemma LevelByte(k: Key)
    ensures DecodeCellKey(k).level == k[0]
  {
    assert k[..1][..0] == [];
  }

  // ---------------------------------------------------------------------
  // Ancestors

  /** The ancestors of `(level, gid)` from the parent upwards, down to level 1:
      the virtual root level 0 is never included. */
  function Ancestors(rules: seq<Rule>, level: nat, gid: nat): (r: seq<CellId>)
    requires WellFormed(rules) && level < |rules|
    ensures |r| == if level == 0 then 0 else level - 1
    ensures forall i :: 0 <= i < |r| ==> r[i].level == level - 1 - i && r[i].gid <= gid
    decreases level
  {
    if level <= 1 then []
    else
      var p := Parent(rules, level, gid);
      ParentBelow(rules, level, gid);
      [CellId(level - 1, p)] + Ancestors(rules, level - 1, p)
  }

  /** The first ancestor is the parent, and each later one is the parent of
      the one before it; none is at level 0. */
  lemma {:induction false} AncestorsChain(rules: seq<Rule>, level: nat, gid: nat, r: seq<CellId>)
    requires WellFormed(rules) && level < |rules| && r == Ancestors(rules, level, gid)
    ensures |r| > 0 ==> r[0] == CellId(level - 1, Parent(rules, level, gid))
    ensures forall i :: 0 <= i < |r| - 1 ==> 1 <= r[i].level < |rules| && r[i + 1].gid == Parent(rules, r[i].level, r[i].gid)
    ensures forall i :: 0 <= i < |r| ==> 1 <= r[i].level
    decreases level
  {
    if level > 1 {
      var p := Parent(rules, level, gid);
      var tail := Ancestors(rules, level - 1, p);
      AncestorsChain(rules, level - 1, p, tail);
      forall i | 0 <= i < |r| - 1 ensures r[i + 1].gid == Parent(rules, r[i].level, r[i].gid) {
        assert r[i + 1] == tail[i];
        if i > 0 {
          assert r[i] == tail[i - 1];
        }
      }
    }
  }

  /** An ancestor's ancestors are ancestors. */
  lemma {:induction false} AncestorsTransitive(rules: seq<Rule>, level: nat, gid: nat, c: CellId, a: CellId)
    requires WellFormed(rules) && level < |rules|
    requires c in Ancestors(rules, level, gid) && a in Ancestors(rules, c.level, c.gid)
    ensures a in Ancestors(rules, level, gid)
    decreases level
  {
    var p := Parent(rules, level, gid);
    if c != CellId(level - 1, p) {
      AncestorsTransitive(rules, level - 1, p, c, a);
    }
  }

  /** `[_encode_cell_key(l, g) for (l, g) in cs]` */
  function EncodeAll(cs: seq<CellId>): (ks: seq<Key>)
    requires forall c :: c in cs ==> KeyFits(c)
    ensures |ks| == |cs|
  {
    if cs == [] then []
    else EncodeAll(cs[..|cs| - 1]) + [EncodeCellKey(cs[|cs| - 1])]
  }

  /** A key is among the encodings exactly when it decodes to one of the cells. */
  lemma {:induction false} EncodeAllMember(cs: seq<CellId>)
    requires forall c :: c in cs ==> KeyFits(c)
    ensures forall k: Key :: k in EncodeAll(cs) <==> DecodeCellKey(k) in cs
  {
    if cs != [] {
      var init, last := cs[..|cs| - 1], cs[|cs| - 1];
      assert forall c :: c in init ==> c in cs;
      EncodeAllMember(init);
      DecodeOfEncode(last);
      assert cs == init + [last];
      forall k: Key | DecodeCellKey(k) == last ensures k == EncodeCellKey(last) {
        EncodeOfDecode(k);
      }
    }
  }

  lemma EncodeAllSnoc(cs: seq<CellId>, c: CellId)
    requires forall a :: a in cs ==> KeyFits(a)
    requires KeyFits(c)
    ensures EncodeAll(cs + [c]) == EncodeAll(cs) + [EncodeCellKey(c)]
  {
    assert (cs + [c])[..|cs|] == cs;
  }

  /** Appending the next parent keeps the split of the ancestor chain into
      the part collected and the part still to come. */
  lemma AncestorsExtend(whole: seq<CellId>, acc: seq<CellId>, rest: seq<CellId>, parent: CellId, further: seq<CellId>)
    requires whole == acc + rest && rest == [parent] + further
    ensures whole == (acc + [parent]) + further
  {
  }

  lemma AncestorsFit(rules: seq<Rule>, c: CellId)
    requires WellFormed(rules) && c.level < |rules| && KeyFits(c)
    ensures forall a :: a in Ancestors(rules, c.level, c.gid) ==> KeyFits(a)
  {
  }

  /** One step of the ancestor loop: the parent id computed from the level
      table is Parent's, and the chain continues from it. */
  lemma AncestorStep(rules: seq<Rule>, levelInfo: seq<Dims>, p: nat, childGid: nat, parentGid: nat)
    requires LevelTable(rules, levelInfo) && 1 <= p && p + 1 < |levelInfo|
    requires levelInfo[p + 1].width > 0
    requires parentGid == (childGid / levelInfo[p + 1].width / rules[p].sh) * levelInfo[p].width
                          + childGid % levelInfo[p + 1].width / rules[p].sw
    ensures parentGid == Parent(rules, p + 1, childGid) && parentGid <= childGid
    ensures Ancestors(rules, p + 1, childGid) == [CellId(p, parentGid)] + Ancestors(rules, p, parentGid)
  {
    ParentBelow(rules, p + 1, childGid);
  }

  /** `_get_all_ancestor_keys(key, level_info, subdivide_rules)`: the loop
      over parent levels L-1 down to 1, each step dividing the child's column
      and row by the parent level's rule. The source reads
      `level_info[L]`, so the key's level must be in the table. */
  method AllAncestorKeys(key: Key, levelInfo: seq<Dims>, rules: seq<Rule>) returns (ancestors: seq<Key>)
    requires LevelTable(rules, levelInfo) && DecodeCellKey(key).level < |levelInfo|
    ensures ancestors == EncodeAll(Ancestors(rules, DecodeCellKey(key).level, DecodeCellKey(key).gid))
  {
    var c := DecodeCellKey(key);
    ancestors := [];
    ghost var acc: seq<CellId> := [];
    var childGid: nat := c.gid;
    var parentLevel: int := c.level - 1;
    while parentLevel > 0
      invariant 0 <= parentLevel + 1 <= c.level
      invariant childGid <= c.gid
      invariant forall a :: a in acc ==> KeyFits(a)
      invariant Ancestors(rules, c.level, c.gid) == acc + Ancestors(rules, parentLevel + 1, childGid)
      invariant ancestors == EncodeAll(acc)
      decreases parentLevel
    {
      DimsPositive(rules, parentLevel + 1);
      var rule := rules[parentLevel];
      var parentCols := levelInfo[parentLevel].width;
      var childCols := levelInfo[parentLevel + 1].width;
      var u, v := childGid % childCols, childGid / childCols;
      var parentGid: nat := (v / rule.sh) * parentCols + u / rule.sw;
      AncestorStep(rules, levelInfo, parentLevel, childGid, parentGid);
      var parent := CellId(parentLevel, parentGid);
      AncestorsExtend(Ancestors(rules, c.level, c.gid), acc, Ancestors(rules, parentLevel + 1, childGid),
                      parent, Ancestors(rules, parentLevel, parentGid));
      EncodeAllSnoc(acc, parent);
      ancestors := ancestors + [EncodeCellKey(parent)];
      acc := acc + [parent];
      childGid := parentGid;
      parentLevel := parentLevel - 1;
    }
    assert Ancestors(rules, parentLevel + 1, childGid) == [];
    assert acc == Ancestors(rules, c.level, c.gid);
  }

  // ---------------------------------------------------------------------
  // Conflict pruning

  /** k encodes a proper ancestor of the cell d encodes. */
  predicate AncestorKey(rules: seq<Rule>, k: Key, d: Key)
    requires WellFormed(rules)
  {
    var c := DecodeCellKey(d);
    c.level < |rules| && DecodeCellKey(k) in Ancestors(rules, c.level, c.gid)
  }

  lemma AncestorKeyTransitive(rules: seq<Rule>, k: Key, d: Key, e: Key)
    requires WellFormed(rules) && AncestorKey(rules, k, d) && AncestorKey(rules, d, e)
    ensures AncestorKey(rules, k, e)
  {
    var c := DecodeCellKey(e);
    AncestorsTransitive(rules, c.level, c.gid, DecodeCellKey(d), DecodeCellKey(k));
  }

  /** Some key of `keys` above level `level` descends from k. */
  ghost predicate Dominated(rules: seq<Rule>, keys: set<Key>, k: Key, level: nat)
    requires WellFormed(rules)
  {
    exists d :: d in keys && DecodeCellKey(d).level > level && AncestorKey(rules, k, d)
  }

  /** Some key of `keys` descends from k. */
  ghost predicate HasDescendant(rules: seq<Rule>, keys: set<Key>, k: Key)
    requires WellFormed(rules)
  {
    exists d :: d in keys && AncestorKey(rules, k, d)
  }

  /** Only keys of level 2 and up have ancestors. */
  lemma DominatedAboveOne(rules: seq<Rule>, keys: set<Key>, k: Key)
    requires WellFormed(rules)
    ensures Dominated(rules, keys, k, 1) <==> HasDescendant(rules, keys, k)
  {
    if HasDescendant(rules, keys, k) {
      var d :| d in keys && AncestorKey(rules, k, d);
      assert DecodeCellKey(d).level > 1;
    }
  }

  /** One pass of the level loop: removing the ancestors of the keys left at
      `level` extends the removal to every descendant at `level` or above. */
  lemma PruneStep(rules: seq<Rule>, keys0: set<Key>, keys: set<Key>, atLevel: set<Key>, remove: set<Key>, level: nat)
    requires WellFormed(rules) && level >= 1
    requires forall k :: k in keys <==> k in keys0 && !Dominated(rules, keys0, k, level)
    requires forall k :: k in atLevel <==> k in keys && DecodeCellKey(k).level == level
    requires forall x :: x in remove <==> exists d :: d in atLevel && AncestorKey(rules, x, d)
    ensures forall k :: k in keys - remove <==> k in keys0 && !Dominated(rules, keys0, k, level - 1)
  {
    forall k | k in keys0 && Dominated(rules, keys0, k, level - 1) && !Dominated(rules, keys0, k, level)
      ensures k in remove
    {
      var d :| d in keys0 && DecodeCellKey(d).level > level - 1 && AncestorKey(rules, k, d);
      if !(d in keys) {
        var e :| e in keys0 && DecodeCellKey(e).level > level && AncestorKey(rules, d, e);
        AncestorKeyTransitive(rules, k, d, e);
        assert false;
      }
      assert d in atLevel;
    }
    forall k | k in remove
      ensures Dominated(rules, keys0, k, level - 1)
    {
      var d :| d in atLevel && AncestorKey(rules, k, d);
      assert d in keys0 && DecodeCellKey(d).level > level - 1;
    }
  }

  /** The conflict filter of `assembly`: for level = |level_info| down to 2,
      the ancestors of the keys still present at that level are removed. The
      result is exactly the keys with no descendant among the input keys. The
      key levels must lie in the level table, which `_update_cells_by_patch`
      already demands. */
  method PruneConflicts(keys0: set<Key>, rules: seq<Rule>, levelInfo: seq<Dims>) returns (keys: set<Key>)
    requires LevelTable(rules, levelInfo)
    requires forall k :: k in keys0 ==> DecodeCellKey(k).level < |levelInfo|
    ensures forall k :: k in keys <==> k in keys0 && !HasDescendant(rules, keys0, k)
    ensures keys <= keys0
    ensures forall k, d :: k in keys && d in keys ==> !AncestorKey(rules, k, d)
  {
    keys := keys0;
    var level := |levelInfo|;
    while level > 1
      invariant 1 <= level <= |levelInfo|
      invariant forall k :: k in keys <==> k in keys0 && !Dominated(rules, keys0, k, level)
    {
      var atLevel := set k | k in keys && k[0] == level;
      forall k | k in keys ensures k in atLevel <==> DecodeCellKey(k).level == level {
        LevelByte(k);
      }
      var remove := LevelAncestors(atLevel, rules, levelInfo);
      PruneStep(rules, keys0, keys, atLevel, remove, level);
      keys := keys - remove;
      level := level - 1;
    }
    forall k | k in keys0 ensures Dominated(rules, keys0, k, 1) <==> HasDescendant(rules, keys0, k) {
      DominatedAboveOne(rules, keys0, k);
    }
  }

  /** Some key of `from` descends from x. */
  ghost predicate Covered(rules: seq<Rule>, from: set<Key>, x: Key)
    requires WellFormed(rules)
  {
    exists d :: d in from && AncestorKey(rules, x, d)
  }

  /** The inner loop of the conflict filter: the union of the ancestor keys
      of every key at one level. */
  method LevelAncestors(atLevel: set<Key>, rules: seq<Rule>, levelInfo: seq<Dims>) returns (remove: set<Key>)
    requires LevelTable(rules, levelInfo)
    requires forall k :: k in atLevel ==> DecodeCellKey(k).level < |levelInfo|
    ensures forall x :: x in remove <==> exists d :: d in atLevel && AncestorKey(rules, x, d)
  {
    remove := {};
    var rest := atLevel;
    ghost var done: set<Key> := {};
    while rest != {}
      invariant done + rest == atLevel
      invariant forall x :: x in remove <==> Covered(rules, done, x)
      decreases |rest|
    {
      var key :| key in rest;
      var ancestors := AllAncestorKeys(key, levelInfo, rules);
      var next := remove + set x | x in ancestors;
      AncestorListMember(rules, key, ancestors);
      CollectAncestors(rules, done, remove, key, ancestors, next);
      remove := next;
      done := done + {key};
      rest := rest - {key};
    }
    assert done == atLevel;
  }

  /** The ancestor list of a key holds exactly its ancestor keys. */
  lemma AncestorListMember(rules: seq<Rule>, key: Key, ancestors: seq<Key>)
    requires WellFormed(rules) && DecodeCellKey(key).level < |rules|
    requires ancestors == EncodeAll(Ancestors(rules, DecodeCellKey(key).level, DecodeCellKey(key).gid))
    ensures forall x: Key :: x in ancestors <==> AncestorKey(rules, x, key)
  {
    var c := DecodeCellKey(key);
    AncestorsFit(rules, c);
    EncodeAllMember(Ancestors(rules, c.level, c.gid));
  }

  /** Adding one key's ancestor list to the removal set. */
  lemma CollectAncestors(rules: seq<Rule>, done: set<Key>, remove: set<Key>,
                         key: Key, ancestors: seq<Key>, next: set<Key>)
    requires WellFormed(rules)
    requires forall x :: x in remove <==> Covered(rules, done, x)
    requires forall x: Key :: x in ancestors <==> AncestorKey(rules, x, key)
    requires next == remove + set x | x in ancestors
    ensures forall x :: x in next <==> Covered(rules, done + {key}, x)
  {
    forall x: Key ensures x in next <==> Covered(rules, done + {key}, x) {
      if Covered(rules, done + {key}, x) {
        var d :| d in done + {key} && AncestorKey(rules, x, d);
        if d != key {
          assert Covered(rules, done, x);
        }
      }
    }
  }

  // ---------------------------------------------------------------------
  // Remapping a patch into the meta grid

  /** What `_update_cells_by_patch` raises for one activated patch cell, in
      the order the loop body meets them: IndexError when the meta level
      table has no entry for the level, IndexError when the patch level
      table has none, ZeroDivisionError for a patch level without columns,
      and struct.error when the remapped key does not fit '!BQ' (a negative
      id, or one of 2^64 or more). */
  datatype RemapError = MetaLevelIndex | PatchLevelIndex | ZeroColumns | PackError

  /** The meta-grid id of a patch cell: its patch column and row shifted by
      the patch's offset at this level, renumbered row-major over the meta
      level. The offsets `int(bl_col_meta_f * meta_level_cols + 0.5)` and
      `int(bl_row_meta_f * meta_level_rows + 0.5)` are computed in floating
      point from the meta level's column and row counts; here they are the
      functions `colOffset` and `rowOffset` of those counts. Either may be
      negative, when the patch reaches left of or below the meta bounds. */
  function MetaGid(levelInfo: seq<Dims>, patchInfo: seq<Dims>,
                   colOffset: nat -> int, rowOffset: nat -> int, c: CellId): int
    requires c.level < |levelInfo| && c.level < |patchInfo| && patchInfo[c.level].width > 0
  {
    var pw := patchInfo[c.level].width;
    var mw, mh := levelInfo[c.level].width, levelInfo[c.level].height;
    (rowOffset(mh) + c.gid / pw) * mw + (colOffset(mw) + c.gid % pw)
  }

  /** The first error the loop body raises for cell `c`, or None. */
  function RemapFailure(levelInfo: seq<Dims>, patchInfo: seq<Dims>,
                        colOffset: nat -> int, rowOffset: nat -> int, c: CellId): Option<RemapError>
  {
    if c.level >= |levelInfo| then Some(MetaLevelIndex)
    else if c.level >= |patchInfo| then Some(PatchLevelIndex)
    else if patchInfo[c.level].width == 0 then Some(ZeroColumns)
    else if !(c.level < U8_LIMIT && 0 <= MetaGid(levelInfo, patchInfo, colOffset, rowOffset, c) < U64_LIMIT)
    then Some(PackError)
    else None
  }

  function RemapKey(levelInfo: seq<Dims>, patchInfo: seq<Dims>,
                    colOffset: nat -> int, rowOffset: nat -> int, c: CellId): Key
    requires RemapFailure(levelInfo, patchInfo, colOffset, rowOffset, c).None?
  {
    EncodeCellKey(CellId(c.level, MetaGid(levelInfo, patchInfo, colOffset, rowOffset, c) as nat))
  }

  /** A remapped key decodes to the same level, and when the shifted column
      lies inside the meta level, to the patch column and row shifted by the
      offsets. */
  lemma RemapPlacement(levelInfo: seq<Dims>, patchInfo: seq<Dims>,
                       colOffset: nat -> int, rowOffset: nat -> int, c: CellId)
    requires RemapFailure(levelInfo, patchInfo, colOffset, rowOffset, c).None?
    ensures DecodeCellKey(RemapKey(levelInfo, patchInfo, colOffset, rowOffset, c)).level == c.level
    ensures var pw, mw, mh := patchInfo[c.level].width, levelInfo[c.level].width, levelInfo[c.level].height;
      var col, row := colOffset(mw) + c.gid % pw, rowOffset(mh) + c.gid / pw;
      var m := DecodeCellKey(RemapKey(levelInfo, patchInfo, colOffset, rowOffset, c)).gid;
      0 <= col < mw && 0 <= row ==> m % mw == col && m / mw == row
  {
    var m := MetaGid(levelInfo, patchInfo, colOffset, rowOffset, c);
    DecodeOfEncode(CellId(c.level, m as nat));
    var pw, mw, mh := patchInfo[c.level].width, levelInfo[c.level].width, levelInfo[c.level].height;
    var col, row := colOffset(mw) + c.gid % pw, rowOffset(mh) + c.gid / pw;
    if 0 <= col < mw && 0 <= row {
      ColRowOfGid(col, row, mw);
    }
  }

  /** `_update_cells_by_patch`: each activated cell of the patch, in the
      order the patch lists them, adds its remapped key to the set; the
      first cell the body fails on raises, and the call returns that error. */
  method UpdateCellsByPatch(keys0: set<Key>, activated: seq<CellId>, levelInfo: seq<Dims>,
                            patchInfo: seq<Dims>, colOffset: nat -> int, rowOffset: nat -> int)
    returns (r: Result<set<Key>, RemapError>)
    ensures r.Ok? <==> forall j :: 0 <= j < |activated| ==>
      RemapFailure(levelInfo, patchInfo, colOffset, rowOffset, activated[j]).None?
    ensures r.Ok? ==> forall k :: k in r.value <==>
      || k in keys0
      || exists j :: 0 <= j < |activated| &&
           RemapFailure(levelInfo, patchInfo, colOffset, rowOffset, activated[j]).None? &&
           k == RemapKey(levelInfo, patchInfo, colOffset, rowOffset, activated[j])
    ensures r.Err? ==>
      exists j :: 0 <= j < |activated| &&
        (forall i :: 0 <= i < j ==> RemapFailure(levelInfo, patchInfo, colOffset, rowOffset, activated[i]).None?) &&
        RemapFailure(levelInfo, patchInfo, colOffset, rowOffset, activated[j]) == Some(r.error)
  {
    var keys := keys0;
    var i := 0;
    while i < |activated|
      invariant 0 <= i <= |activated|
      invariant forall j :: 0 <= j < i ==> RemapFailure(levelInfo, patchInfo, colOffset, rowOffset, activated[j]).None?
      invariant forall k :: k in keys <==>
        || k in keys0
        || exists j :: 0 <= j < i &&
             RemapFailure(levelInfo, patchInfo, colOffset, rowOffset, activated[j]).None? &&
             k == RemapKey(levelInfo, patchInfo, colOffset, rowOffset, activated[j])
    {
      var c := activated[i];
      if c.level >= |levelInfo| {
        return Err(MetaLevelIndex);
      }
      var metaCols, metaRows := levelInfo[c.level].width, levelInfo[c.level].height;
      if c.level >= |patchInfo| {
        return Err(PatchLevelIndex);
      }
      var patchCols := patchInfo[c.level].width;
      if patchCols == 0 {
        return Err(ZeroColumns);
      }
      var u, v := c.gid % patchCols, c.gid / patchCols;
      var metaU, metaV := colOffset(metaCols) + u, rowOffset(metaRows) + v;
      var metaGid := metaV * metaCols + metaU;
      if !(c.level < U8_LIMIT && 0 <= metaGid < U64_LIMIT) {
        return Err(PackError);
      }
      keys := keys + {EncodeCellKey(CellId(c.level, metaGid))};
      i := i + 1;
    }
    return Ok(keys);
  }
}
