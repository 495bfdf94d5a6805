/** The per-patch cell store of server/crms/patch/patch.py: a table from the
    packed key `level << 32 | global_id` to the two flags (deleted, activate),
    changed in place by subdivide, merge, delete and restore. */
module PatchStore {
  import opened Bytes
  import opened Geometry
  import opened Wrappers

  // ---------------------------------------------------------------------
  // Packed 64-bit keys

  /** `_encode_index`: `uint64(level) << 32 | uint64(global_id)`; with both
      parts below 2^32 the two bit fields do not overlap. */
  function EncodeIndex(level: nat, gid: nat): (k: nat)
    requires level < U32_LIMIT && gid < U32_LIMIT
    ensures k < U64_LIMIT
  {
    level * U32_LIMIT + gid
  }

  function Key(c: CellId): nat
    requires c.level < U32_LIMIT && c.gid < U32_LIMIT
  {
    EncodeIndex(c.level, c.gid)
  }

  /** `_decode_cell_key`: `(k >> 32, k & 0xFFFFFFFF)`. */
  function DecodeCellKey(k: nat): (c: CellId)
    ensures c.gid < U32_LIMIT
    ensures k < U64_LIMIT ==> c.level < U32_LIMIT
  {
    CellId(k / U32_LIMIT, k % U32_LIMIT)
  }

  lemma DecodeEncode(level: nat, gid: nat)
    requires level < U32_LIMIT && gid < U32_LIMIT
    ensures DecodeCellKey(EncodeIndex(level, gid)) == CellId(level, gid)
  {
    DivModOf(level, gid, U32_LIMIT);
  }

  lemma EncodeDecode(k: nat)
    requires k < U64_LIMIT
    ensures EncodeIndex(DecodeCellKey(k).level, DecodeCellKey(k).gid) == k
  {
  }

  lemma EncodeInjective(a: CellId, b: CellId)
    requires a.level < U32_LIMIT && a.gid < U32_LIMIT
    requires b.level < U32_LIMIT && b.gid < U32_LIMIT
    ensures Key(a) == Key(b) <==> a == b
  {
    DecodeEncode(a.level, a.gid);
    DecodeEncode(b.level, b.gid);
  }

  /** The element types of the numpy arrays the batch helpers receive. */
  predicate InRange(cs: seq<CellId>)
  {
    forall c :: c in cs ==> c.level < U8_LIMIT && c.gid < U32_LIMIT
  }

  /** `_encode_index_batch` on a uint8 level array and a uint32 id array:
      the shift is taken modulo 2^64, then or-ed with the 32-bit id. */
  function EncodeIndexBatch(cs: seq<CellId>): (keys: seq<nat>)
    requires InRange(cs)
    ensures |keys| == |cs|
  {
    seq(|cs|, i requires 0 <= i < |cs| => (cs[i].level * U32_LIMIT) % U64_LIMIT + cs[i].gid)
  }

  /** One element of `_decode_index_batch`: the level is cast to uint8. */
  function DecodeBatchKey(k: nat): (c: CellId)
    ensures c.level < U8_LIMIT && c.gid < U32_LIMIT
  {
    CellId((k / U32_LIMIT) % U8_LIMIT, k % U32_LIMIT)
  }

  function DecodeIndexBatch(keys: seq<nat>): (cs: seq<CellId>)
    ensures |cs| == |keys| && InRange(cs)
  {
    seq(|keys|, i requires 0 <= i < |keys| => DecodeBatchKey(keys[i]))
  }

  /** The batch encoder agrees with the scalar one element by element, and the
      batch decoder inverts it. */
  lemma BatchCodec(cs: seq<CellId>)
    requires InRange(cs)
    ensures forall i :: 0 <= i < |cs| ==> EncodeIndexBatch(cs)[i] == Key(cs[i])
    ensures DecodeIndexBatch(EncodeIndexBatch(cs)) == cs
  {
    forall i | 0 <= i < |cs|
      ensures EncodeIndexBatch(cs)[i] == Key(cs[i])
      ensures DecodeBatchKey(EncodeIndexBatch(cs)[i]) == cs[i]
    {
      var c := cs[i];
      assert c.level * U32_LIMIT < U64_LIMIT;
      DecodeEncode(c.level, c.gid);
    }
  }

  /** On keys whose level fits a byte the batch decoder agrees with the scalar one. */
  lemma BatchDecodeAgrees(k: nat)
    requires k < U8_LIMIT * U32_LIMIT
    ensures DecodeBatchKey(k) == DecodeCellKey(k)
  {
    QuotientBound(k, U32_LIMIT, U8_LIMIT);
  }

  // ---------------------------------------------------------------------
  // Store contents

  /** The two boolean columns of a row. */
  datatype CellState = CellState(deleted: bool, activate: bool)

  datatype PatchError = LevelOutOfRange

  /** What the rule list guarantees: well formed, levels fit the uint8 level
      arrays, and every level's ids fit the uint32 id arrays. */
  predicate RulesOk(rules: seq<Rule>)
  {
    && WellFormed(rules)
    && |rules| < U8_LIMIT
    && forall level :: 0 <= level <= |rules| ==> CellCount(rules, level) <= U32_LIMIT
  }

  /** A real cell: level 1 up to |rules|, id within the level. */
  predicate InGrid(rules: seq<Rule>, c: CellId)
  {
    1 <= c.level <= |rules| && c.gid < CellCount(rules, c.level)
  }

  /** Every stored key decodes to a cell of the grid. */
  predicate StoreOk(rules: seq<Rule>, m: map<nat, CellState>)
  {
    && RulesOk(rules)
    && forall k :: k in m ==> k < U64_LIMIT && InGrid(rules, DecodeCellKey(k))
  }

  lemma InGridKey(rules: seq<Rule>, c: CellId)
    requires RulesOk(rules) && InGrid(rules, c)
    ensures c.level < U8_LIMIT && c.gid < U32_LIMIT
    ensures DecodeCellKey(Key(c)) == c
  {
    assert CellCount(rules, c.level) <= U32_LIMIT;
    DecodeEncode(c.level, c.gid);
  }

  /** A listed cell whose key is stored is a cell of the grid. */
  lemma StoredInGrid(rules: seq<Rule>, m: map<nat, CellState>, c: CellId)
    requires StoreOk(rules, m)
    requires c.level < U32_LIMIT && c.gid < U32_LIMIT && Key(c) in m
    ensures InGrid(rules, c)
  {
    DecodeEncode(c.level, c.gid);
  }

  /** A row that subdivide and delete act on. */
  predicate Live(m: map<nat, CellState>, k: nat)
  {
    k in m && m[k].activate && !m[k].deleted
  }

  /** The packed keys of the listed cells whose fields fit the key. */
  function KeySet(cs: seq<CellId>): set<nat>
  {
    set c | c in cs && c.level < U32_LIMIT && c.gid < U32_LIMIT :: Key(c)
  }

  /** `_initialize_default`: every level-1 cell, activated and not deleted. */
  function DefaultCells(rules: seq<Rule>): map<nat, CellState>
    requires RulesOk(rules)
  {
    assert CellCount(rules, 1) <= U32_LIMIT;
    map g | 0 <= g < CellCount(rules, 1) :: EncodeIndex(1, g) := CellState(false, true)
  }

  /** `delete_cells`: listed rows that are activated and not deleted become
      deleted and deactivated; nothing else changes. */
  function DeleteCells(m: map<nat, CellState>, cs: seq<CellId>): map<nat, CellState>
    requires InRange(cs)
  {
    var ks := KeySet(cs);
    map k | k in m :: if k in ks && Live(m, k) then CellState(true, false) else m[k]
  }

  /** `restore_cells`: every listed row that exists becomes activated and not deleted. */
  function RestoreCells(m: map<nat, CellState>, cs: seq<CellId>): map<nat, CellState>
    requires InRange(cs)
  {
    var ks := KeySet(cs);
    map k | k in m :: if k in ks then CellState(false, true) else m[k]
  }

  /** The listed rows set to one flag pair (`self.cache.loc[keys, ...] = ...`). */
  function SetFlags(m: map<nat, CellState>, ks: set<nat>, st: CellState): map<nat, CellState>
  {
    map k | k in m :: if k in ks then st else m[k]
  }

  /** Setting the live listed rows to (true, false) is `delete_cells`. */
  lemma DeleteBySetFlags(m: map<nat, CellState>, cs: seq<CellId>, ks: set<nat>)
    requires InRange(cs)
    requires forall k :: k in m ==> (k in ks <==> k in KeySet(cs) && Live(m, k))
    ensures SetFlags(m, ks, CellState(true, false)) == DeleteCells(m, cs)
  {
  }

  /** Setting the stored listed rows to (false, true) is `restore_cells`. */
  lemma RestoreBySetFlags(m: map<nat, CellState>, cs: seq<CellId>, ks: set<nat>)
    requires InRange(cs)
    requires forall k :: k in m ==> (k in ks <==> k in KeySet(cs))
    ensures SetFlags(m, ks, CellState(false, true)) == RestoreCells(m, cs)
  {
  }

  lemma SetFlagsNothing(m: map<nat, CellState>, st: CellState)
    ensures SetFlags(m, {}, st) == m
  {
  }

  /** The cells whose activate flag is set, decoded as `get_activated_cell_infos` does. */
  function ActivatedOf(m: map<nat, CellState>): set<CellId>
  {
    set k | k in m && m[k].activate :: DecodeBatchKey(k)
  }

  function DeletedOf(m: map<nat, CellState>): set<CellId>
  {
    set k | k in m && m[k].deleted :: DecodeBatchKey(k)
  }

  // ---------------------------------------------------------------------
  // Properties of the store functions

  lemma ActivatedOfStore(rules: seq<Rule>, m: map<nat, CellState>, c: CellId)
    requires StoreOk(rules, m)
    ensures c in ActivatedOf(m) <==> InGrid(rules, c) && Key(c) in m && m[Key(c)].activate
  {
    if c in ActivatedOf(m) {
      var k :| k in m && m[k].activate && DecodeBatchKey(k) == c;
      InGridKey(rules, DecodeCellKey(k));
      BatchDecodeAgrees(k);
    }
    if InGrid(rules, c) && Key(c) in m && m[Key(c)].activate {
      InGridKey(rules, c);
      BatchDecodeAgrees(Key(c));
    }
  }

  lemma DeletedOfStore(rules: seq<Rule>, m: map<nat, CellState>, c: CellId)
    requires StoreOk(rules, m)
    ensures c in DeletedOf(m) <==> InGrid(rules, c) && Key(c) in m && m[Key(c)].deleted
  {
    if c in DeletedOf(m) {
      var k :| k in m && m[k].deleted && DecodeBatchKey(k) == c;
      InGridKey(rules, DecodeCellKey(k));
      BatchDecodeAgrees(k);
    }
    if InGrid(rules, c) && Key(c) in m && m[Key(c)].deleted {
      InGridKey(rules, c);
      BatchDecodeAgrees(Key(c));
    }
  }

  /** The activated cells of a consistent store, cell by cell. */
  lemma ActivatedOfAll(rules: seq<Rule>, m: map<nat, CellState>)
    requires StoreOk(rules, m)
    ensures forall c :: c in ActivatedOf(m) <==>
      InGrid(rules, c) && c.level < U32_LIMIT && c.gid < U32_LIMIT && Key(c) in m && m[Key(c)].activate
  {
    forall c
      ensures c in ActivatedOf(m) <==>
        InGrid(rules, c) && c.level < U32_LIMIT && c.gid < U32_LIMIT && Key(c) in m && m[Key(c)].activate
    {
      ActivatedOfStore(rules, m, c);
      if InGrid(rules, c) {
        InGridKey(rules, c);
      }
    }
  }


  lemma DeletedOfAll(rules: seq<Rule>, m: map<nat, CellState>)
    requires StoreOk(rules, m)
    ensures forall c :: c in DeletedOf(m) <==>
      InGrid(rules, c) && c.level < U32_LIMIT && c.gid < U32_LIMIT && Key(c) in m && m[Key(c)].deleted
  {
    forall c
      ensures c in DeletedOf(m) <==>
        InGrid(rules, c) && c.level < U32_LIMIT && c.gid < U32_LIMIT && Key(c) in m && m[Key(c)].deleted
    {
      DeletedOfStore(rules, m, c);
      if InGrid(rules, c) {
        InGridKey(rules, c);
      }
    }
  }


  /** The default store holds exactly the level-1 cells, all activated, none deleted. */
  lemma DefaultStore(rules: seq<Rule>)
    requires RulesOk(rules)
    ensures StoreOk(rules, DefaultCells(rules))
    ensures ActivatedOf(DefaultCells(rules)) == set g | 0 <= g < CellCount(rules, 1) :: CellId(1, g)
    ensures DeletedOf(DefaultCells(rules)) == {}
  {
    var m := DefaultCells(rules);
    assert CellCount(rules, 1) <= U32_LIMIT;
    forall k | k in m ensures k < U64_LIMIT && InGrid(rules, DecodeCellKey(k)) && m[k] == CellState(false, true) {
      var g :| 0 <= g < CellCount(rules, 1) && k == EncodeIndex(1, g);
      DecodeEncode(1, g);
    }
    forall c | c in ActivatedOf(m) ensures c.level == 1 && c.gid < CellCount(rules, 1) {
      ActivatedOfStore(rules, m, c);
    }
    forall g | 0 <= g < CellCount(rules, 1) ensures CellId(1, g) in ActivatedOf(m) {
      assert EncodeIndex(1, g) in m;
      ActivatedOfStore(rules, m, CellId(1, g));
    }
  }

  lemma DeleteKeepsStore(rules: seq<Rule>, m: map<nat, CellState>, cs: seq<CellId>)
    requires StoreOk(rules, m) && InRange(cs)
    ensures StoreOk(rules, DeleteCells(m, cs)) && StoreOk(rules, RestoreCells(m, cs))
    ensures DeleteCells(m, cs).Keys == m.Keys && RestoreCells(m, cs).Keys == m.Keys
  {
  }

  /** Delete only touches listed, existing, activated and not deleted rows. */
  lemma DeleteEffect(m: map<nat, CellState>, cs: seq<CellId>, i: nat)
    requires InRange(cs) && i < |cs|
    ensures Key(cs[i]) in m ==>
              DeleteCells(m, cs)[Key(cs[i])] ==
              (if m[Key(cs[i])].activate && !m[Key(cs[i])].deleted then CellState(true, false) else m[Key(cs[i])])
    ensures forall k :: k in m && k !in KeySet(cs) ==> DeleteCells(m, cs)[k] == m[k]
  {
  }

  /** Restore acts on every listed row whatever its flags, and only on those. */
  lemma RestoreEffect(m: map<nat, CellState>, cs: seq<CellId>, i: nat)
    requires InRange(cs) && i < |cs|
    ensures Key(cs[i]) in m ==> RestoreCells(m, cs)[Key(cs[i])] == CellState(false, true)
    ensures forall k :: k in m && k !in KeySet(cs) ==> RestoreCells(m, cs)[k] == m[k]
  {
  }

  lemma DeleteIdempotent(m: map<nat, CellState>, cs: seq<CellId>)
    requires InRange(cs)
    ensures DeleteCells(DeleteCells(m, cs), cs) == DeleteCells(m, cs)
    ensures RestoreCells(RestoreCells(m, cs), cs) == RestoreCells(m, cs)
  {
  }

  /** Restoring what was just deleted brings back every row that was live. */
  lemma RestoreUndoesDelete(m: map<nat, CellState>, cs: seq<CellId>)
    requires InRange(cs)
    requires forall k :: k in m && k in KeySet(cs) ==> Live(m, k)
    ensures RestoreCells(DeleteCells(m, cs), cs) == m
  {
  }

  // ---------------------------------------------------------------------
  // Subdivide

  /** The listed cells whose rows exist and are activated and not deleted, in
      listed order with repeats kept (`self.cache.loc[existing_parents]`
      followed by the flag mask). */
  function ValidParents(m: map<nat, CellState>, cs: seq<CellId>): (ps: seq<CellId>)
    requires InRange(cs)
    ensures InRange(ps)
    ensures forall p :: p in ps <==> p in cs && Live(m, Key(p))
  {
    if cs == [] then []
    else
      var c := cs[|cs| - 1];
      ValidParents(m, cs[..|cs| - 1]) + (if Live(m, Key(c)) then [c] else [])
  }

  /** The children of a cell, one level down, in local-id order. */
  function ChildrenOf(rules: seq<Rule>, p: CellId): (cs: seq<CellId>)
    requires WellFormed(rules) && p.level < |rules|
    ensures |cs| == rules[p.level].sw * rules[p.level].sh
    ensures forall k :: 0 <= k < |cs| ==> cs[k] == CellId(p.level + 1, ChildAt(rules, p.level, p.gid, k))
  {
    var ids := Children(rules, p.level, p.gid);
    seq(|ids|, k requires 0 <= k < |ids| => CellId(p.level + 1, ids[k]))
  }

  /** Total number of children of the listed parents (the counting pass). */
  function ChildCount(rules: seq<Rule>, ps: seq<CellId>): nat
    requires forall p :: p in ps ==> p.level < |rules|
  {
    if ps == [] then 0
    else
      var p := ps[|ps| - 1];
      ChildCount(rules, ps[..|ps| - 1]) + rules[p.level].sw * rules[p.level].sh
  }

  /** The children of the listed parents, parent by parent (the filling pass). */
  function AllChildren(rules: seq<Rule>, ps: seq<CellId>): (cs: seq<CellId>)
    requires WellFormed(rules) && forall p :: p in ps ==> p.level < |rules|
    ensures |cs| == ChildCount(rules, ps)
    ensures forall c :: c in cs <==> exists p :: p in ps && c in ChildrenOf(rules, p)
  {
    if ps == [] then []
    else
      var p := ps[|ps| - 1];
      AllChildren(rules, ps[..|ps| - 1]) + ChildrenOf(rules, p)
  }

  lemma {:induction false} AllChildrenStep(rules: seq<Rule>, ps: seq<CellId>, i: nat)
    requires WellFormed(rules) && forall p :: p in ps ==> p.level < |rules|
    requires i < |ps|
    ensures AllChildren(rules, ps[..i + 1]) == AllChildren(rules, ps[..i]) + ChildrenOf(rules, ps[i])
  {
    assert ps[..i + 1][..i] == ps[..i];
  }

  lemma ChildCountStep(rules: seq<Rule>, ps: seq<CellId>, i: nat)
    requires forall p :: p in ps ==> p.level < |rules|
    requires i < |ps|
    ensures ChildCount(rules, ps[..i + 1]) == ChildCount(rules, ps[..i]) + rules[ps[i].level].sw * rules[ps[i].level].sh
  {
    assert ps[..i + 1][..i] == ps[..i];
  }

  lemma {:induction false} ChildCountPrefix(rules: seq<Rule>, ps: seq<CellId>, i: nat)
    requires forall p :: p in ps ==> p.level < |rules|
    requires i <= |ps|
    ensures ChildCount(rules, ps[..i]) <= ChildCount(rules, ps)
  {
    if i < |ps| {
      assert ps[..|ps| - 1][..i] == ps[..i];
      ChildCountPrefix(rules, ps[..|ps| - 1], i);
    } else {
      assert ps[..i] == ps;
    }
  }

  /** Children of real cells are real cells. */
  lemma AllChildrenInGrid(rules: seq<Rule>, ps: seq<CellId>)
    requires RulesOk(rules)
    requires forall p :: p in ps ==> p.level < |rules| && InGrid(rules, p)
    ensures forall c :: c in AllChildren(rules, ps) ==> InGrid(rules, c) && c.level < U8_LIMIT && c.gid < U32_LIMIT
    ensures InRange(AllChildren(rules, ps))
  {
    forall c | c in AllChildren(rules, ps)
      ensures InGrid(rules, c) && c.level < U8_LIMIT && c.gid < U32_LIMIT
    {
      var p :| p in ps && c in ChildrenOf(rules, p);
      var k :| 0 <= k < |ChildrenOf(rules, p)| && ChildrenOf(rules, p)[k] == c;
      ChildInLevel(rules, p.level, p.gid, k);
      InGridKey(rules, c);
    }
  }

  /** Valid parents of a consistent store are cells of the grid. */
  lemma ValidParentsInGrid(rules: seq<Rule>, m: map<nat, CellState>, cs: seq<CellId>)
    requires StoreOk(rules, m) && InRange(cs)
    ensures forall p :: p in ValidParents(m, cs) ==> InGrid(rules, p)
  {
    forall p | p in ValidParents(m, cs) ensures InGrid(rules, p) {
      StoredInGrid(rules, m, p);
    }
  }

  /** What `subdivide_cells` returns: an IndexError when a valid parent has no
      rule (it sits on level |rules|), else every child of every valid parent. */
  function SubdivideResult(rules: seq<Rule>, m: map<nat, CellState>, cs: seq<CellId>): Result<seq<CellId>, PatchError>
    requires WellFormed(rules) && InRange(cs)
  {
    var ps := ValidParents(m, cs);
    if exists p :: p in ps && p.level >= |rules| then Err(LevelOutOfRange)
    else Ok(AllChildren(rules, ps))
  }

  /** Existing children are activated and undeleted; missing ones are added
      with both flags false (patch.py's children frame is built that way). */
  function InsertChildren(m: map<nat, CellState>, kids: seq<CellId>): map<nat, CellState>
    requires InRange(kids)
  {
    var ks := KeySet(kids);
    map k | k in m.Keys + ks ::
      if k !in ks then m[k]
      else if k in m then CellState(false, true)
      else CellState(false, false)
  }

  /** Only the activate flag of each parent row is cleared. */
  function DeactivateParents(m: map<nat, CellState>, ps: seq<CellId>): map<nat, CellState>
    requires InRange(ps)
  {
    var ks := KeySet(ps);
    map k | k in m :: if k in ks then m[k].(activate := false) else m[k]
  }

  /** The store after a successful `subdivide_cells`. */
  function SubdivideCells(rules: seq<Rule>, m: map<nat, CellState>, cs: seq<CellId>): (m': map<nat, CellState>)
    requires StoreOk(rules, m) && InRange(cs) && SubdivideResult(rules, m, cs).Ok?
    ensures StoreOk(rules, m')
  {
    var ps := ValidParents(m, cs);
    ValidParentsInGrid(rules, m, cs);
    AllChildrenInGrid(rules, ps);
    InsertChildrenKeepsStore(rules, m, AllChildren(rules, ps));
    DeactivateParents(InsertChildren(m, AllChildren(rules, ps)), ps)
  }

  /** Inserting real cells keeps every stored key a real cell. */
  lemma InsertChildrenKeepsStore(rules: seq<Rule>, m: map<nat, CellState>, kids: seq<CellId>)
    requires StoreOk(rules, m) && InRange(kids)
    requires forall c :: c in kids ==> InGrid(rules, c)
    ensures StoreOk(rules, InsertChildren(m, kids))
  {
    forall k | k in KeySet(kids) ensures k < U64_LIMIT && InGrid(rules, DecodeCellKey(k)) {
      var c :| c in kids && c.level < U32_LIMIT && c.gid < U32_LIMIT && k == Key(c);
      InGridKey(rules, c);
    }
  }

  /** With no valid parent the result is empty and the store is unchanged. */
  lemma SubdivideNoValidParent(rules: seq<Rule>, m: map<nat, CellState>, cs: seq<CellId>)
    requires StoreOk(rules, m) && InRange(cs)
    requires forall c :: c in cs ==> !Live(m, Key(c))
    ensures SubdivideResult(rules, m, cs) == Ok([])
    ensures SubdivideCells(rules, m, cs) == m
  {
    NoLiveParents(m, cs);
    assert AllChildren(rules, []) == [];
    EmptyUpdates(m);
  }

  lemma {:induction false} NoLiveParents(m: map<nat, CellState>, cs: seq<CellId>)
    requires InRange(cs) && forall c :: c in cs ==> !Live(m, Key(c))
    ensures ValidParents(m, cs) == []
  {
    if cs != [] {
      NoLiveParents(m, cs[..|cs| - 1]);
    }
  }

  lemma EmptyUpdates(m: map<nat, CellState>)
    ensures InsertChildren(m, []) == m && DeactivateParents(m, []) == m
  {
    assert KeySet([]) == {};
  }

  lemma InsertChildrenAt(m: map<nat, CellState>, kids: seq<CellId>, k: nat)
    requires InRange(kids)
    ensures k in InsertChildren(m, kids) <==> k in m || k in KeySet(kids)
    ensures k in m && k !in KeySet(kids) ==> InsertChildren(m, kids)[k] == m[k]
    ensures k in KeySet(kids) ==> InsertChildren(m, kids)[k] == CellState(false, k in m)
  {
  }

  lemma DeactivateParentsAt(m: map<nat, CellState>, ps: seq<CellId>, k: nat)
    requires InRange(ps)
    ensures k in DeactivateParents(m, ps) <==> k in m
    ensures k in m && k !in KeySet(ps) ==> DeactivateParents(m, ps)[k] == m[k]
    ensures k in m && k in KeySet(ps) ==> DeactivateParents(m, ps)[k] == m[k].(activate := false)
  {
  }

  /** Every row after a successful `subdivide_cells`: the rows are the old
      ones plus the children of the valid parents; a valid parent ends
      deactivated and not deleted; another child is activated if its row
      existed and inserted inactive otherwise; every other row keeps its flags. */
  lemma SubdivideAt(rules: seq<Rule>, m: map<nat, CellState>, cs: seq<CellId>, k: nat)
    requires StoreOk(rules, m) && InRange(cs) && SubdivideResult(rules, m, cs).Ok?
    ensures k in SubdivideCells(rules, m, cs) <==> k in m || k in KeySet(SubdivideResult(rules, m, cs).value)
    ensures k in SubdivideCells(rules, m, cs) ==>
              SubdivideCells(rules, m, cs)[k] ==
                (if k in KeySet(ValidParents(m, cs)) then CellState(false, false)
                 else if k in KeySet(SubdivideResult(rules, m, cs).value) then CellState(false, k in m)
                 else m[k])
  {
    var ps := ValidParents(m, cs);
    ValidParentsInGrid(rules, m, cs);
    var kids := AllChildren(rules, ps);
    AllChildrenInGrid(rules, ps);
    var inserted := InsertChildren(m, kids);
    assert SubdivideCells(rules, m, cs) == DeactivateParents(inserted, ps);
    InsertChildrenAt(m, kids, k);
    DeactivateParentsAt(inserted, ps, k);
    if k in KeySet(ps) {
      var q :| q in ps && q.level < U32_LIMIT && q.gid < U32_LIMIT && Key(q) == k;
      assert Live(m, k);
    }
  }

  /** For a valid parent p: p ends deactivated and not deleted, and each of
      its children is in the result and stored afterwards. */
  lemma SubdivideParent(rules: seq<Rule>, m: map<nat, CellState>, cs: seq<CellId>, p: CellId, j: nat)
    requires StoreOk(rules, m) && InRange(cs) && SubdivideResult(rules, m, cs).Ok?
    requires p in cs && Live(m, Key(p)) && p.level < |rules|
    requires j < rules[p.level].sw * rules[p.level].sh
    ensures SubdivideCells(rules, m, cs)[Key(p)] == CellState(false, false)
    ensures var c := ChildrenOf(rules, p)[j];
      && c in SubdivideResult(rules, m, cs).value
      && c.level < U8_LIMIT && c.gid < U32_LIMIT
      && Key(c) in SubdivideCells(rules, m, cs)
  {
    var ps := ValidParents(m, cs);
    var kids := AllChildren(rules, ps);
    assert SubdivideResult(rules, m, cs).value == kids;
    assert Key(p) in KeySet(ps) by {
      assert p in ps;
    }
    SubdivideAt(rules, m, cs, Key(p));
    var c := ChildrenOf(rules, p)[j];
    assert c in kids by {
      ChildInAll(rules, ps, p, j);
    }
    assert c.level < U8_LIMIT && c.gid < U32_LIMIT && Key(c) in KeySet(kids) by {
      ValidParentsInGrid(rules, m, cs);
      AllChildrenInGrid(rules, ps);
    }
    SubdivideAt(rules, m, cs, Key(c));
  }

  lemma ChildInAll(rules: seq<Rule>, ps: seq<CellId>, p: CellId, j: nat)
    requires WellFormed(rules) && forall q :: q in ps ==> q.level < |rules|
    requires p in ps && j < rules[p.level].sw * rules[p.level].sh
    ensures ChildrenOf(rules, p)[j] in AllChildren(rules, ps)
  {
    assert ChildrenOf(rules, p)[j] in ChildrenOf(rules, p);
  }

  // ---------------------------------------------------------------------
  // Merge

  /** An input `merge_cells` fails on: `_get_parent_global_id` reads
      `level_info[level]`, which has one entry per rule. */
  predicate MergeBad(rules: seq<Rule>, c: CellId)
  {
    c.level >= 2 && c.level >= |rules|
  }

  predicate MergeInputOk(rules: seq<Rule>, cs: seq<CellId>)
  {
    forall c :: c in cs ==> c.level >= 1 && !MergeBad(rules, c)
  }

  /** The parent candidates: one per input of level 2 or more, in input
      order, repeats kept; level-1 inputs are skipped. */
  function MergeCandidates(rules: seq<Rule>, cs: seq<CellId>): (ps: seq<CellId>)
    requires WellFormed(rules) && InRange(cs) && MergeInputOk(rules, cs)
    ensures InRange(ps)
    ensures forall p :: p in ps ==> 1 <= p.level && p.level + 1 < |rules|
  {
    if cs == [] then []
    else
      var c := cs[|cs| - 1];
      var init := MergeCandidates(rules, cs[..|cs| - 1]);
      if c.level == 1 then init
      else
        ParentBelow(rules, c.level, c.gid);
        init + [CellId(c.level - 1, Parent(rules, c.level, c.gid))]
  }

  predicate NoRepeats(s: seq<CellId>)
  {
    forall i, j :: 0 <= i < j < |s| ==> s[i] != s[j]
  }

  /** The distinct elements of `s` in order of first occurrence, which is the
      key order of a `Counter` built from `s`. */
  function Distinct(s: seq<CellId>): (r: seq<CellId>)
    ensures forall x :: x in r <==> x in s
    ensures NoRepeats(r)
  {
    if s == [] then []
    else
      var init := Distinct(s[..|s| - 1]);
      var x := s[|s| - 1];
      if x in init then init else init + [x]
  }

  /** Children a level-`p.level` cell has. */
  function GroupSize(rules: seq<Rule>, p: CellId): nat
    requires p.level < |rules|
  {
    rules[p.level].sw * rules[p.level].sh
  }

  /** The parents, in `order`, whose candidate count equals their group size
      and whose row exists (the loop over `parent_count.items()`). */
  function FullGroups(rules: seq<Rule>, m: map<nat, CellState>, order: seq<CellId>, counts: multiset<CellId>): (act: seq<CellId>)
    requires InRange(order) && forall p :: p in order ==> p.level < |rules|
    ensures InRange(act)
    ensures forall p :: p in act <==> p in order && counts[p] == GroupSize(rules, p) && Key(p) in m
  {
    if order == [] then []
    else
      var p := order[|order| - 1];
      FullGroups(rules, m, order[..|order| - 1], counts) +
        (if counts[p] == GroupSize(rules, p) && Key(p) in m then [p] else [])
  }

  /** The parents `merge_cells` activates, in returned order. */
  function MergeActivated(rules: seq<Rule>, m: map<nat, CellState>, cs: seq<CellId>): (act: seq<CellId>)
    requires WellFormed(rules) && InRange(cs) && MergeInputOk(rules, cs)
    ensures InRange(act)
    ensures forall p :: p in act ==> 1 <= p.level && p.level + 1 < |rules|
  {
    var cands := MergeCandidates(rules, cs);
    FullGroups(rules, m, Distinct(cands), multiset(cands))
  }

  /** What `merge_cells` returns: an IndexError when a level-2-or-deeper
      input has no level entry, else the activated parents. */
  function MergeResult(rules: seq<Rule>, m: map<nat, CellState>, cs: seq<CellId>): Result<seq<CellId>, PatchError>
    requires WellFormed(rules) && InRange(cs)
    requires forall c :: c in cs ==> c.level >= 1
  {
    if exists c :: c in cs && MergeBad(rules, c) then Err(LevelOutOfRange)
    else Ok(MergeActivated(rules, m, cs))
  }

  /** Sets the activate flag of the given rows and leaves their deleted flag. */
  function ActivateRows(m: map<nat, CellState>, ks: set<nat>): map<nat, CellState>
  {
    map k | k in m :: if k in ks then m[k].(activate := true) else m[k]
  }

  function DropRows(m: map<nat, CellState>, ks: set<nat>): map<nat, CellState>
  {
    map k | k in m && k !in ks :: m[k]
  }

  lemma MergeActivatedInGrid(rules: seq<Rule>, m: map<nat, CellState>, cs: seq<CellId>)
    requires StoreOk(rules, m) && InRange(cs) && MergeInputOk(rules, cs)
    ensures forall p :: p in MergeActivated(rules, m, cs) ==> InGrid(rules, p) && p.level < |rules|
  {
    forall p | p in MergeActivated(rules, m, cs) ensures InGrid(rules, p) {
      StoredInGrid(rules, m, p);
    }
  }

  /** The store after a successful `merge_cells`: activated parents, then
      every stored child of an activated parent dropped. */
  function MergeCells(rules: seq<Rule>, m: map<nat, CellState>, cs: seq<CellId>): (m': map<nat, CellState>)
    requires StoreOk(rules, m) && InRange(cs) && MergeInputOk(rules, cs)
    ensures StoreOk(rules, m')
  {
    var act := MergeActivated(rules, m, cs);
    MergeActivatedInGrid(rules, m, cs);
    AllChildrenInGrid(rules, act);
    DropRows(ActivateRows(m, KeySet(act)), KeySet(AllChildren(rules, act)))
  }

  /** A parent is activated exactly when its candidate count, repeats
      included, equals its group size and its row exists. */
  lemma MergeActivation(rules: seq<Rule>, m: map<nat, CellState>, cs: seq<CellId>, p: CellId)
    requires StoreOk(rules, m) && InRange(cs) && MergeInputOk(rules, cs)
    ensures var cands := MergeCandidates(rules, cs);
      p in MergeActivated(rules, m, cs) <==>
        p in cands && multiset(cands)[p] == GroupSize(rules, p) && Key(p) in m
  {
    var cands := MergeCandidates(rules, cs);
    var order := Distinct(cands);
    assert p in order <==> p in cands;
    assert MergeActivated(rules, m, cs) == FullGroups(rules, m, order, multiset(cands));
  }

  /** No parent is returned twice. */
  lemma MergeActivatedDistinct(rules: seq<Rule>, m: map<nat, CellState>, cs: seq<CellId>)
    requires StoreOk(rules, m) && InRange(cs) && MergeInputOk(rules, cs)
    ensures NoRepeats(MergeActivated(rules, m, cs))
  {
    var cands := MergeCandidates(rules, cs);
    var order := Distinct(cands);
    assert InRange(order);
    assert forall p :: p in order ==> p.level < |rules|;
    FullGroupsDistinct(rules, m, order, multiset(cands));
    assert MergeActivated(rules, m, cs) == FullGroups(rules, m, order, multiset(cands));
  }

  lemma {:induction false} FullGroupsDistinct(rules: seq<Rule>, m: map<nat, CellState>, order: seq<CellId>, counts: multiset<CellId>)
    requires InRange(order) && forall p :: p in order ==> p.level < |rules|
    requires NoRepeats(order)
    ensures NoRepeats(FullGroups(rules, m, order, counts))
  {
    if order != [] {
      var init := order[..|order| - 1];
      FullGroupsDistinct(rules, m, init, counts);
      var x := order[|order| - 1];
      var before := FullGroups(rules, m, init, counts);
      assert x !in init;
      assert x !in before;
      var act := FullGroups(rules, m, order, counts);
      var extra := if counts[x] == GroupSize(rules, x) && Key(x) in m then [x] else [];
      assert act == before + extra;
      forall i, j | 0 <= i < j < |act| ensures act[i] != act[j] {
        if j < |before| {
          assert act[i] == before[i] && act[j] == before[j];
        } else {
          assert act[j] == x && act[i] == before[i] && before[i] in before;
        }
      }
    }
  }

  /** Rows that survive are those not a stored child of an activated parent;
      an activated parent gains `activate` and keeps its `deleted` flag;
      every other surviving row is unchanged. */
  lemma MergeEffect(rules: seq<Rule>, m: map<nat, CellState>, cs: seq<CellId>, k: nat)
    requires StoreOk(rules, m) && InRange(cs) && MergeInputOk(rules, cs)
    ensures var act := MergeActivated(rules, m, cs);
      && (k in MergeCells(rules, m, cs) <==> k in m && k !in KeySet(AllChildren(rules, act)))
      && (k in MergeCells(rules, m, cs) && k in KeySet(act) ==>
            MergeCells(rules, m, cs)[k] == CellState(m[k].deleted, true))
      && (k in MergeCells(rules, m, cs) && k !in KeySet(act) ==> MergeCells(rules, m, cs)[k] == m[k])
  {
    MergeActivatedInGrid(rules, m, cs);
  }

  lemma {:induction false} FullGroupsEmpty(rules: seq<Rule>, m: map<nat, CellState>, order: seq<CellId>, counts: multiset<CellId>)
    requires InRange(order) && forall p :: p in order ==> p.level < |rules|
    requires forall p :: p in order ==> counts[p] != GroupSize(rules, p) || Key(p) !in m
    ensures FullGroups(rules, m, order, counts) == []
  {
    if order != [] {
      FullGroupsEmpty(rules, m, order[..|order| - 1], counts);
    }
  }

  /** When no parent has its full group listed (or no row), nothing changes. */
  lemma MergeNoFullGroup(rules: seq<Rule>, m: map<nat, CellState>, cs: seq<CellId>)
    requires StoreOk(rules, m) && InRange(cs) && MergeInputOk(rules, cs)
    requires var cands := MergeCandidates(rules, cs);
      forall p :: p in cands ==> multiset(cands)[p] != GroupSize(rules, p) || Key(p) !in m
    ensures MergeResult(rules, m, cs) == Ok([])
    ensures MergeCells(rules, m, cs) == m
  {
    var cands := MergeCandidates(rules, cs);
    var order := Distinct(cands);
    assert InRange(order);
    FullGroupsEmpty(rules, m, order, multiset(cands));
    assert MergeActivated(rules, m, cs) == [];
    MergeNothingActivated(rules, m, cs);
  }

  /** When no parent is activated the store is unchanged. */
  lemma MergeNothingActivated(rules: seq<Rule>, m: map<nat, CellState>, cs: seq<CellId>)
    requires StoreOk(rules, m) && InRange(cs) && MergeInputOk(rules, cs)
    requires MergeActivated(rules, m, cs) == []
    ensures MergeCells(rules, m, cs) == m
  {
    assert KeySet([]) == {};
  }

  lemma {:induction false} KeySetSnoc(cs: seq<CellId>, c: CellId)
    ensures forall k :: k in KeySet(cs + [c]) <==>
      k in KeySet(cs) || (c.level < U32_LIMIT && c.gid < U32_LIMIT && k == Key(c))
  {
    forall k | k in KeySet(cs) ensures k in KeySet(cs + [c]) {
      var x :| x in cs && x.level < U32_LIMIT && x.gid < U32_LIMIT && Key(x) == k;
      assert x in cs + [c];
    }
    if c.level < U32_LIMIT && c.gid < U32_LIMIT {
      assert c in cs + [c];
    }
  }

  lemma {:induction false} KeySetAppend(a: seq<CellId>, b: seq<CellId>)
    ensures forall k :: k in KeySet(a + b) <==> k in KeySet(a) || k in KeySet(b)
  {
    forall k | k in KeySet(a) ensures k in KeySet(a + b) {
      var x :| x in a && x.level < U32_LIMIT && x.gid < U32_LIMIT && Key(x) == k;
      assert x in a + b;
    }
    forall k | k in KeySet(b) ensures k in KeySet(a + b) {
      var x :| x in b && x.level < U32_LIMIT && x.gid < U32_LIMIT && Key(x) == k;
      assert x in a + b;
    }
  }

  lemma ActivateKeepsStore(rules: seq<Rule>, m: map<nat, CellState>, ks: set<nat>)
    requires StoreOk(rules, m)
    ensures StoreOk(rules, ActivateRows(m, ks))
    ensures forall k :: k in ActivateRows(m, ks) <==> k in m
  {
  }

  /** The two batch updates, with row sets that agree with the store
      function's on the stored keys, give the store after the merge. */
  lemma MergeCellsOf(rules: seq<Rule>, m: map<nat, CellState>, cs: seq<CellId>, activate: set<nat>, dropped: set<nat>)
    requires StoreOk(rules, m) && InRange(cs) && MergeInputOk(rules, cs)
    requires activate == KeySet(MergeActivated(rules, m, cs))
    requires forall k :: k in ActivateRows(m, activate) ==>
      (k in dropped <==> k in KeySet(AllChildren(rules, MergeActivated(rules, m, cs))))
    ensures DropRows(ActivateRows(m, activate), dropped) == MergeCells(rules, m, cs)
  {
    var act := MergeActivated(rules, m, cs);
    MergeActivatedInGrid(rules, m, cs);
    DropRowsSame(ActivateRows(m, activate), dropped, KeySet(AllChildren(rules, act)));
  }

  lemma DropKeepsStore(rules: seq<Rule>, m: map<nat, CellState>, ks: set<nat>)
    requires StoreOk(rules, m)
    ensures StoreOk(rules, DropRows(m, ks))
  {
  }

  /** Row sets that agree on the stored keys drop the same rows. */
  lemma DropRowsSame(m: map<nat, CellState>, a: set<nat>, b: set<nat>)
    requires forall k :: k in m ==> (k in a <==> k in b)
    ensures DropRows(m, a) == DropRows(m, b)
  {
  }

  lemma ActivateRowsSame(m: map<nat, CellState>, a: set<nat>, b: set<nat>)
    requires forall k :: k in m ==> (k in a <==> k in b)
    ensures ActivateRows(m, a) == ActivateRows(m, b)
  {
  }

  // ---------------------------------------------------------------------
  // Merge undoes subdivide

  function Repeat(p: CellId, n: nat): (s: seq<CellId>)
    ensures |s| == n && forall i :: 0 <= i < n ==> s[i] == p
  {
    seq(n, _ => p)
  }

  /** Every child of p names p as its merge candidate. */
  lemma {:induction false} CandidatesOfChildren(rules: seq<Rule>, p: CellId, i: nat)
    requires WellFormed(rules) && 1 <= p.level && p.level + 1 < |rules|
    requires InRange(ChildrenOf(rules, p))
    requires i <= |ChildrenOf(rules, p)|
    ensures InRange(ChildrenOf(rules, p)[..i]) && MergeInputOk(rules, ChildrenOf(rules, p)[..i])
    ensures MergeCandidates(rules, ChildrenOf(rules, p)[..i]) == Repeat(p, i)
  {
    var kids := ChildrenOf(rules, p);
    if i > 0 {
      CandidatesOfChildren(rules, p, i - 1);
      CandidateOfChild(rules, p, i - 1);
      assert Repeat(p, i) == Repeat(p, i - 1) + [p];
    } else {
      PrefixInRange(rules, kids, 0);
    }
  }

  /** The j-th child of p adds p to the candidates. */
  lemma CandidateOfChild(rules: seq<Rule>, p: CellId, j: nat)
    requires WellFormed(rules) && 1 <= p.level && p.level + 1 < |rules|
    requires InRange(ChildrenOf(rules, p))
    requires j < |ChildrenOf(rules, p)|
    ensures InRange(ChildrenOf(rules, p)[..j]) && MergeInputOk(rules, ChildrenOf(rules, p)[..j])
    ensures InRange(ChildrenOf(rules, p)[..j + 1]) && MergeInputOk(rules, ChildrenOf(rules, p)[..j + 1])
    ensures MergeCandidates(rules, ChildrenOf(rules, p)[..j + 1]) ==
      MergeCandidates(rules, ChildrenOf(rules, p)[..j]) + [p]
  {
    var kids := ChildrenOf(rules, p);
    var c := kids[j];
    assert kids[..j + 1] == kids[..j] + [c];
    assert InRange(kids[..j + 1]) && MergeInputOk(rules, kids[..j + 1]) by {
      PrefixInRange(rules, kids, j + 1);
    }
    assert c.level == p.level + 1 && Parent(rules, c.level, c.gid) == p.gid by {
      ParentOfChild(rules, p.level, p.gid, j);
    }
    MergeCandidatesStep(rules, kids[..j], c);
  }

  lemma PrefixInRange(rules: seq<Rule>, cs: seq<CellId>, i: nat)
    requires InRange(cs) && MergeInputOk(rules, cs) && i <= |cs|
    ensures InRange(cs[..i]) && MergeInputOk(rules, cs[..i])
  {
    assert forall c :: c in cs[..i] ==> c in cs;
  }

  /** One more input of level 2 or more adds its parent to the candidates. */
  lemma MergeCandidatesStep(rules: seq<Rule>, cs: seq<CellId>, c: CellId)
    requires WellFormed(rules) && InRange(cs + [c]) && MergeInputOk(rules, cs + [c]) && c.level >= 2
    ensures InRange(cs) && MergeInputOk(rules, cs)
    ensures MergeCandidates(rules, cs + [c]) ==
      MergeCandidates(rules, cs) + [CellId(c.level - 1, Parent(rules, c.level, c.gid))]
  {
    assert (cs + [c])[..|cs|] == cs;
    assert forall x :: x in cs ==> x in cs + [c];
  }

  lemma {:induction false} RepeatCount(p: CellId, n: nat)
    ensures multiset(Repeat(p, n))[p] == n
  {
    if n > 0 {
      RepeatCount(p, n - 1);
      assert Repeat(p, n) == Repeat(p, n - 1) + [p];
    }
  }

  lemma {:induction false} DistinctRepeat(p: CellId, n: nat)
    requires n >= 1
    ensures Distinct(Repeat(p, n)) == [p]
  {
    if n > 1 {
      DistinctRepeat(p, n - 1);
      assert Repeat(p, n)[..n - 1] == Repeat(p, n - 1);
    } else {
      assert Repeat(p, 1)[..0] == [];
    }
  }

  /** Subdividing a single live cell p whose level has a rule. */
  lemma {:induction false} SubdivideOne(rules: seq<Rule>, m: map<nat, CellState>, p: CellId)
    requires StoreOk(rules, m) && InRange([p]) && Live(m, Key(p)) && p.level < |rules|
    ensures SubdivideResult(rules, m, [p]) == Ok(ChildrenOf(rules, p))
    ensures InRange(ChildrenOf(rules, p)) && Key(p) !in KeySet(ChildrenOf(rules, p))
    ensures var m1 := SubdivideCells(rules, m, [p]);
      var ks := KeySet(ChildrenOf(rules, p));
      && (forall k :: k in m1 <==> k in m || k in ks)
      && m1[Key(p)] == CellState(false, false)
      && forall k :: k in m && k !in ks && k != Key(p) ==> m1[k] == m[k]
  {
    SubdivideOneResult(rules, m, p);
    ChildKeysDiffer(rules, m, p);
    SubdivideOneRows(rules, m, p);
  }

  lemma SubdivideOneResult(rules: seq<Rule>, m: map<nat, CellState>, p: CellId)
    requires WellFormed(rules) && InRange([p]) && Live(m, Key(p)) && p.level < |rules|
    ensures SubdivideResult(rules, m, [p]) == Ok(ChildrenOf(rules, p))
  {
    ValidParentsSingle(m, p);
    AllChildrenSingle(rules, p);
  }

  lemma SubdivideOneRows(rules: seq<Rule>, m: map<nat, CellState>, p: CellId)
    requires StoreOk(rules, m) && InRange([p]) && Live(m, Key(p)) && p.level < |rules|
    requires SubdivideResult(rules, m, [p]) == Ok(ChildrenOf(rules, p))
    requires InRange(ChildrenOf(rules, p)) && Key(p) !in KeySet(ChildrenOf(rules, p))
    ensures var m1 := SubdivideCells(rules, m, [p]);
      var ks := KeySet(ChildrenOf(rules, p));
      && (forall k :: k in m1 <==> k in m || k in ks)
      && m1[Key(p)] == CellState(false, false)
      && forall k :: k in m && k !in ks && k != Key(p) ==> m1[k] == m[k]
  {
    var m1 := SubdivideCells(rules, m, [p]);
    var ks := KeySet(ChildrenOf(rules, p));
    SubdivideOneAt(rules, m, p, Key(p));
    forall k: nat
      ensures k in m1 <==> k in m || k in ks
      ensures k in m && k !in ks && k != Key(p) ==> m1[k] == m[k]
    {
      SubdivideOneAt(rules, m, p, k);
    }
  }

  lemma SubdivideOneAt(rules: seq<Rule>, m: map<nat, CellState>, p: CellId, k: nat)
    requires StoreOk(rules, m) && InRange([p]) && Live(m, Key(p)) && p.level < |rules|
    requires SubdivideResult(rules, m, [p]) == Ok(ChildrenOf(rules, p))
    ensures k in SubdivideCells(rules, m, [p]) <==> k in m || k in KeySet(ChildrenOf(rules, p))
    ensures k in SubdivideCells(rules, m, [p]) ==>
              SubdivideCells(rules, m, [p])[k] ==
                (if k == Key(p) then CellState(false, false)
                 else if k in KeySet(ChildrenOf(rules, p)) then CellState(false, k in m)
                 else m[k])
  {
    ValidParentsSingle(m, p);
    KeySetSingle(p);
    SubdivideAt(rules, m, [p], k);
  }

  lemma ValidParentsSingle(m: map<nat, CellState>, p: CellId)
    requires InRange([p]) && Live(m, Key(p))
    ensures ValidParents(m, [p]) == [p]
  {
    assert [p][..0] == [];
  }

  /** A cell's children all lie one level down, in range, with other keys. */
  lemma ChildKeysDiffer(rules: seq<Rule>, m: map<nat, CellState>, p: CellId)
    requires StoreOk(rules, m) && InRange([p]) && Live(m, Key(p)) && p.level < |rules|
    ensures InRange(ChildrenOf(rules, p)) && Key(p) !in KeySet(ChildrenOf(rules, p))
  {
    StoredInGrid(rules, m, p);
    AllChildrenSingle(rules, p);
    AllChildrenInGrid(rules, [p]);
    forall c | c in ChildrenOf(rules, p) ensures Key(c) != Key(p) {
      EncodeInjective(c, p);
    }
  }

  /** The candidates from exactly the children of p form one full group. */
  lemma {:induction false} ChildrenCandidates(rules: seq<Rule>, p: CellId)
    requires WellFormed(rules) && InRange([p]) && 1 <= p.level && p.level + 1 < |rules|
    requires InRange(ChildrenOf(rules, p))
    ensures MergeInputOk(rules, ChildrenOf(rules, p))
    ensures var cands := MergeCandidates(rules, ChildrenOf(rules, p));
      Distinct(cands) == [p] && multiset(cands)[p] == GroupSize(rules, p)
  {
    var kids := ChildrenOf(rules, p);
    CandidatesOfChildren(rules, p, |kids|);
    assert kids[..|kids|] == kids;
    MulPositive(rules[p.level].sw, rules[p.level].sh);
    RepeatCount(p, |kids|);
    DistinctRepeat(p, |kids|);
  }

  /** Merging exactly the children of a stored cell p activates p and drops
      the children. */
  lemma {:induction false} MergeOneGroup(rules: seq<Rule>, m: map<nat, CellState>, p: CellId)
    requires StoreOk(rules, m) && InRange([p]) && Key(p) in m && 1 <= p.level && p.level + 1 < |rules|
    requires InRange(ChildrenOf(rules, p))
    ensures MergeInputOk(rules, ChildrenOf(rules, p))
    ensures MergeResult(rules, m, ChildrenOf(rules, p)) == Ok([p])
    ensures MergeCells(rules, m, ChildrenOf(rules, p)) ==
      DropRows(ActivateRows(m, {Key(p)}), KeySet(ChildrenOf(rules, p)))
  {
    MergeActivatedOne(rules, m, p);
    MergeOneGroupCells(rules, m, p);
  }

  lemma MergeOneGroupCells(rules: seq<Rule>, m: map<nat, CellState>, p: CellId)
    requires StoreOk(rules, m) && InRange([p]) && Key(p) in m && 1 <= p.level && p.level + 1 < |rules|
    requires InRange(ChildrenOf(rules, p)) && MergeInputOk(rules, ChildrenOf(rules, p))
    requires MergeActivated(rules, m, ChildrenOf(rules, p)) == [p]
    ensures MergeCells(rules, m, ChildrenOf(rules, p)) ==
      DropRows(ActivateRows(m, {Key(p)}), KeySet(ChildrenOf(rules, p)))
  {
    KeySetSingle(p);
    AllChildrenSingle(rules, p);
  }

  lemma KeySetSingle(p: CellId)
    requires InRange([p])
    ensures KeySet([p]) == {Key(p)}
  {
  }

  lemma AllChildrenSingle(rules: seq<Rule>, p: CellId)
    requires WellFormed(rules) && p.level < |rules|
    ensures AllChildren(rules, [p]) == ChildrenOf(rules, p)
  {
    assert [p][..0] == [];
  }

  lemma MergeActivatedOne(rules: seq<Rule>, m: map<nat, CellState>, p: CellId)
    requires WellFormed(rules) && InRange([p]) && Key(p) in m && 1 <= p.level && p.level + 1 < |rules|
    requires InRange(ChildrenOf(rules, p))
    ensures MergeInputOk(rules, ChildrenOf(rules, p))
    ensures MergeActivated(rules, m, ChildrenOf(rules, p)) == [p]
  {
    var kids := ChildrenOf(rules, p);
    ChildrenCandidates(rules, p);
    var cands := MergeCandidates(rules, kids);
    assert [p][..0] == [];
    assert FullGroups(rules, m, [p], multiset(cands)) == [p];
  }

  /** Merging the children that subdividing a live cell p produced (with a
      level below p's children to look parents up in) restores the store:
      p is activated again, and the children rows are gone. */
  lemma {:induction false} SubdivideThenMerge(rules: seq<Rule>, m: map<nat, CellState>, p: CellId)
    requires StoreOk(rules, m) && InRange([p]) && Live(m, Key(p)) && p.level + 1 < |rules|
    ensures SubdivideResult(rules, m, [p]) == Ok(ChildrenOf(rules, p))
    ensures var m1 := SubdivideCells(rules, m, [p]);
      var kids := ChildrenOf(rules, p);
      && InRange(kids) && MergeInputOk(rules, kids)
      && MergeResult(rules, m1, kids) == Ok([p])
      && MergeCells(rules, m1, kids) == DropRows(m, KeySet(kids))
  {
    StoredInGrid(rules, m, p);
    SubdivideOne(rules, m, p);
    var m1 := SubdivideCells(rules, m, [p]);
    var kids := ChildrenOf(rules, p);
    MergeOneGroup(rules, m1, p);
    ReactivatedParent(m, m1, Key(p), KeySet(kids));
  }

  /** Map bookkeeping for the round trip: the parent row went from live to
      (false, false), new rows are all in `ks`, everything else is as before. */
  lemma ReactivatedParent(m: map<nat, CellState>, m1: map<nat, CellState>, kp: nat, ks: set<nat>)
    requires Live(m, kp) && kp !in ks
    requires (forall k :: k in m1 <==> k in m || k in ks) && m1[kp] == CellState(false, false)
    requires forall k :: k in m && k !in ks && k != kp ==> m1[k] == m[k]
    ensures DropRows(ActivateRows(m1, {kp}), ks) == DropRows(m, ks)
  {
    var left := DropRows(ActivateRows(m1, {kp}), ks);
    var right := DropRows(m, ks);
    assert left.Keys == right.Keys;
    forall k | k in left ensures left[k] == right[k] {
    }
  }
}
