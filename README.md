# gridmen grid core in Dafny

This project models the core of the gridmen backend's structured-grid pipeline and proves properties of the model:

- **Patch store** (`server/crms/patch/patch.py`). A patch keeps one row per cell, keyed by `level << 32 | global_id`. Each row has a `deleted` flag and an `activate` flag. The model covers subdividing cells into their children, merging full groups of children back into their parent, deleting and restoring cells, the default level-1 store, and the queries that list activated and deleted cells.
- **Grid assembly** (`server/templates/grid/hooks.py`):
  - the 9-byte `!BQ` cell key and its order;
  - the subdivision rules and level sizes;
  - remapping the activated cells of each patch into the schema grid;
  - ancestor keys, and pruning of ancestors that a finer cell covers;
  - the `GridCache` index;
  - the depth-first neighbour search along each edge;
  - fractional cell coordinates;
  - the edge table with its 25-byte edge keys;
  - the side-by-side edge planning of `_calc_horizontal_edges` and `_calc_vertical_edges`;
  - the binary cell and edge records with their length-prefixed framing.
- **Topology reader** (`server/crms/grid.py`): decoding of `HydroElement` and `HydroSide` records, their `ne`/`ns` rows, and the length-prefixed framing that `HydroElements` and `HydroSides` read.
- **NE/NS text files** (`server/templates/grid/vector.py`):
  - `get_ne` and `get_ns` parse whitespace-separated text into column lists;
  - `write_ne` and `write_ns` print them;
  - writing and then reading gives the data back.
- **GeoJSON intake** (`server/crms/vector.py`): `_ensure_feature_collection` and `_detect_geojson_epsg`.

Modules follow the program:

| module | models |
|---|---|
| `Wrappers` | `Option` and `Result` |
| `Bytes` | big-endian and 32-bit two's complement struct fields |
| `PatchStore` | the packed patch key, and the patch rows as a map together with the functions that specify each operation |
| `PatchTable` | class `Patch`, whose methods update its rows in place |
| `Geometry` | subdivision rules, level sizes, and parent and child ids |
| `CellKey` | the cell key codec, sorted and joined keys, and the index map |
| `Assembly` | ancestors, pruning and the per-patch remap |
| `GridCache` | class `GridCache` and the neighbour table |
| `Neighbours` | the neighbour search |
| `Fractions` | `_simplify_fraction` and `_get_fractional_coords` |
| `Edges` | the edge key, class `EdgeIndex` (the edge table) and side planning |
| `CellEdges` | `_calc_cell_edges` |
| `Records` | cell and edge records and batches |
| `TopoReader` | `grid.py` decoding |
| `Text` | `str.split()` and `int()` |
| `GridText` | float text, and the column and writer loops shared by NE and NS |
| `NeFile` | NE reading and writing |
| `NsFile` | NS reading and writing |
| `GeoJson` | JSON values, the feature-collection check and EPSG detection |

Floating-point values never take part in arithmetic here:

- records carry them as opaque 8-byte fields;
- the text files treat them through `parse`, `fixed14` (`:.14g`) and `repr` functions given as parameters.

Where the model has to fix an assumption about those functions (for example, that `parse` reads back what `repr` prints), the assumption is a predicate in the member's requires.


## Model

| member | source | states |
|---|---|---|
| `Bytes.FromBEOfBE` | server/templates/grid/hooks.py:338-342 | unpacking the big-endian field `struct.pack` writes for any value below 256^n gives the value back |
| `Bytes.BEOfFromBE` | server/templates/grid/hooks.py:341-342 | packing what was unpacked from n bytes gives the same n bytes |
| `Bytes.BEInjective` | server/templates/grid/hooks.py:338-339 | two values that fit the width and pack to the same bytes are equal |
| `Bytes.BEOrder` | server/templates/grid/hooks.py:1363 | equal-width big-endian fields compare bytewise exactly as their values compare |
| `Bytes.I32RoundTrip` | server/crms/grid.py:65 | the four-byte two's complement field (struct `i`) decodes to the value it encodes, for every value in [-2^31, 2^31) |
| `CellKey.EncodeCellKey` | server/templates/grid/hooks.py:338-339 | `_encode_cell_key` produces a 9-byte key |
| `CellKey.DecodeCellKey` | server/templates/grid/hooks.py:341-342 | `_decode_cell_key` of any 9 bytes gives a level below 2^8 and an id below 2^64 |
| `CellKey.DecodeOfEncode` | server/templates/grid/hooks.py:338-342 | decoding an encoded key gives back the (level, global id) pair |
| `CellKey.EncodeOfDecode` | server/templates/grid/hooks.py:338-342 | encoding a decoded key gives back the 9 bytes |
| `CellKey.EncodeInjective` | server/templates/grid/hooks.py:338-339 | two cells that fit the format have the same key if and only if they are the same cell |
| `CellKey.EncodingOrder` | server/templates/grid/hooks.py:1363 | one key sorts before another bytewise if and only if its (level, global id) pair is lexicographically smaller, so `sorted` on keys orders cells by level, then id |
| `CellKey.MinimumFirst` | server/templates/grid/hooks.py:1363 | a minimum placed in front of a strictly sorted rest gives a strictly sorted sequence |
| `CellKey.SortedKeys` | server/templates/grid/hooks.py:1363 | `sorted(activated_cell_keys)` holds exactly the members of the set, each once, in strictly increasing (level, id) order |
| `CellKey.Join` | server/templates/grid/hooks.py:1363 | `b''.join` of n keys is 9n bytes long |
| `CellKey.CacheCells` | server/templates/grid/hooks.py:281-295 | the cache's array view has one entry per complete 9-byte chunk |
| `CellKey.JoinChunks` | server/templates/grid/hooks.py:317-320 | chunk i of the joined data is the encoding of key i |
| `CellKey.DecodeJoin` | server/templates/grid/hooks.py:297-304 | decoding the joined keys chunk by chunk gives the keys back, in order |
| `CellKey.IndexMap` | server/templates/grid/hooks.py:304 | the `map` of `GridCache` has exactly the cells of the array as keys |
| `CellKey.IndexMapLast` | server/templates/grid/hooks.py:304 | each cell maps to a position that holds it, and no later position holds it (the dict comprehension keeps the last one) |
| `CellKey.IndexMapInverts` | server/templates/grid/hooks.py:304 | on sorted, duplicate-free data `map[array[i]] == i` |
| `PatchStore.EncodeIndex` | server/crms/patch/patch.py:540-542 | `level << 32` combined with the global id stays below 2^64 for a level and id below 2^32 |
| `PatchStore.DecodeCellKey` | server/crms/patch/patch.py:544-548 | `(k >> 32, k & 0xFFFFFFFF)` gives an id below 2^32, and a level below 2^32 when k is below 2^64 |
| `PatchStore.DecodeEncode` | server/crms/patch/patch.py:540-548 | decoding the packed key of a level and a global id below 2^32 gives them back |
| `PatchStore.EncodeDecode` | server/crms/patch/patch.py:540-548 | repacking a decoded 64-bit key gives the same key |
| `PatchStore.EncodeInjective` | server/crms/patch/patch.py:540-542 | two in-range cells have the same key if and only if they are equal |
| `PatchStore.EncodeIndexBatch` | server/crms/patch/patch.py:550-552 | the batch encoder gives one key per cell |
| `PatchStore.DecodeBatchKey` | server/crms/patch/patch.py:554-558 | the batch decoder casts the level to uint8 and the id to uint32, so both fit those widths |
| `PatchStore.DecodeIndexBatch` | server/crms/patch/patch.py:554-558 | the batch decoder gives one in-range cell per key |
| `PatchStore.BatchCodec` | server/crms/patch/patch.py:550-558 | each batch key is the scalar key of its cell, and the batch decoder inverts the batch encoder on cells whose level fits a byte |
| `PatchStore.BatchDecodeAgrees` | server/crms/patch/patch.py:544-558 | when the stored level fits a byte, the uint8 cast of the batch decoder changes nothing and it agrees with the scalar decoder |
| `PatchStore.InGridKey` | server/crms/patch/patch.py:540-548 | a cell of the grid has an in-range key that decodes back to it |
| `PatchStore.StoredInGrid` | server/crms/patch/patch.py:345-346 | a listed cell whose key is in a consistent store is a cell of the grid |
| `PatchStore.DeleteBySetFlags` | server/crms/patch/patch.py:345-359 | setting (deleted, activate) to (true, false) on the listed rows that exist, are activated and are not deleted is `delete_cells` |
| `PatchStore.RestoreBySetFlags` | server/crms/patch/patch.py:468-476 | setting (false, true) on every listed row that exists is `restore_cells` |
| `PatchStore.SetFlagsNothing` | server/crms/patch/patch.py:348-349 | with no row selected the store is unchanged (the early returns) |
| `PatchStore.ActivatedOfStore` | server/crms/patch/patch.py:486-488 | a cell is listed as activated if and only if it is in the grid and its row exists with `activate` set |
| `PatchStore.DeletedOfStore` | server/crms/patch/patch.py:497-499 | a cell is listed as deleted if and only if it is in the grid and its row exists with `deleted` set |
| `PatchStore.ActivatedOfAll` | server/crms/patch/patch.py:478-488 | for every cell at once: activated listing if and only if the activate flag of its stored row is set |
| `PatchStore.DeletedOfAll` | server/crms/patch/patch.py:490-499 | for every cell at once: deleted listing if and only if the deleted flag of its stored row is set |
| `PatchStore.DefaultStore` | server/crms/patch/patch.py:108-129 | the default store is consistent; it holds the level-1 cells 0 until width*height-1, all activated and none deleted |
| `PatchStore.DeleteKeepsStore` | server/crms/patch/patch.py:337-359 | delete and restore keep the store consistent and add or remove no row |
| `PatchStore.DeleteCells` | server/crms/patch/patch.py:337-359 | the store after `delete_cells`, as a definition over the map of rows: each listed live row becomes (deleted, not activated); `PatchStore.DeleteEffect`, `DeleteKeepsStore`, `DeleteIdempotent` and `RestoreUndoesDelete` state its properties |
| `PatchStore.RestoreCells` | server/crms/patch/patch.py:457-476 | the store after `restore_cells`, as a definition: each listed existing row becomes (not deleted, activated); `PatchStore.RestoreEffect` and `RestoreUndoesDelete` state its properties |
| `PatchStore.DeleteEffect` | server/crms/patch/patch.py:352-359 | a listed row becomes (deleted, not activated) exactly when it was activated and not deleted, and rows not listed are untouched |
| `PatchStore.RestoreEffect` | server/crms/patch/patch.py:468-476 | every listed existing row becomes (not deleted, activated) whatever its flags were, and rows not listed are untouched |
| `PatchStore.DeleteIdempotent` | server/crms/patch/patch.py:337-359 | deleting twice is deleting once, and the same holds for restoring |
| `PatchStore.RestoreUndoesDelete` | server/crms/patch/patch.py:337-476 | when every listed stored row is live, restoring what was just deleted gives the original store back |
| `PatchStore.ValidParents` | server/crms/patch/patch.py:256-264 | the valid parents are exactly the listed cells whose row exists, is activated and is not deleted |
| `PatchStore.ChildrenOf` | server/crms/patch/patch.py:217-238 | a cell has sw*sh children one level down, and child k sits at local id k in row-major position |
| `PatchStore.AllChildren` | server/crms/patch/patch.py:269-303 | the collected children number the sum of the parents' rule sizes, and are exactly the children of the valid parents |
| `PatchStore.AllChildrenStep` | server/crms/patch/patch.py:281-295 | each pass over a parent appends exactly its children to the collected arrays |
| `PatchStore.ChildCountStep` | server/crms/patch/patch.py:269-273 | the pre-count grows by sw*sh of each parent's level |
| `PatchStore.ChildCountPrefix` | server/crms/patch/patch.py:276-292 | the slots filled so far never exceed the pre-allocated count |
| `PatchStore.AllChildrenInGrid` | server/crms/patch/patch.py:276-310 | children of cells of the grid are cells of the grid, and fit the uint8 and uint32 arrays |
| `PatchStore.ValidParentsInGrid` | server/crms/patch/patch.py:256-264 | valid parents of a consistent store are cells of the grid |
| `PatchStore.SubdivideResult` | server/crms/patch/patch.py:240-335 | the result of `subdivide_cells`, as a definition: the IndexError when a valid parent's level has no rule, else the children of every valid parent, parent by parent; `PatchStore.AllChildren`, `SubdivideParent` and `SubdivideOneResult` state it |
| `PatchStore.InsertChildren` | server/crms/patch/patch.py:316-330 | the insertion of the children, as a definition: existing child rows become (not deleted, activated), new ones (not deleted, not activated); `PatchStore.InsertChildrenAt` states it key by key |
| `PatchStore.SubdivideCells` | server/crms/patch/patch.py:305-333 | the store after a successful subdivision is consistent again |
| `PatchStore.InsertChildrenKeepsStore` | server/crms/patch/patch.py:316-330 | inserting or updating children that are cells of the grid keeps the store consistent |
| `PatchStore.SubdivideNoValidParent` | server/crms/patch/patch.py:259-266 | with no valid parent, `subdivide_cells` returns no children and leaves the store unchanged |
| `PatchStore.NoLiveParents` | server/crms/patch/patch.py:263-264 | when no listed row is live, the valid-parent filter is empty |
| `PatchStore.EmptyUpdates` | server/crms/patch/patch.py:316-333 | inserting no children and deactivating no parents change nothing |
| `PatchStore.InsertChildrenAt` | server/crms/patch/patch.py:316-330 | after the insertion a key is stored if and only if it was stored before or is a child. In that case an existing child becomes (not deleted, activated) and a new child is inserted as (not deleted, not activated); other rows are unchanged |
| `PatchStore.DeactivateParentsAt` | server/crms/patch/patch.py:333 | clearing `activate` on the valid parents keeps every key, changes only those rows, and touches only their activate flag |
| `PatchStore.SubdivideAt` | server/crms/patch/patch.py:305-333 | per key, the store after `subdivide_cells` is the old row, a row for a child that already existed or was inserted inactive, or a deactivated parent |
| `PatchStore.SubdivideParent` | server/crms/patch/patch.py:270-335 | a valid parent ends (not deleted, not activated), and each of its children is in the result and stored afterwards |
| `PatchStore.ChildInAll` | server/crms/patch/patch.py:281-292 | each child of each valid parent is among the collected children |
| `PatchStore.MergeCandidates` | server/crms/patch/patch.py:407-414 | the candidates list the parent of every input above level 1, in input order and with repeats, each inside the rule table |
| `PatchStore.Distinct` | server/crms/patch/patch.py:420-422 | the iteration order of the `Counter` holds each candidate exactly once |
| `PatchStore.FullGroups` | server/crms/patch/patch.py:422-430 | a candidate is activated if and only if its count equals sw*sh of its level and its row exists |
| `PatchStore.MergeActivated` | server/crms/patch/patch.py:419-430 | the parents `merge_cells` activates are in range and inside the rule table |
| `PatchStore.MergeActivatedInGrid` | server/crms/patch/patch.py:419-430 | in a consistent store the activated parents are cells of the grid |
| `PatchStore.MergeCells` | server/crms/patch/patch.py:435-452 | the store after a merge is consistent |
| `PatchStore.MergeResult` | server/crms/patch/patch.py:389-455 | the result of `merge_cells`, as a definition: the IndexError when an input above level 1 has no level entry, else the activated full groups in `Counter` order; `PatchStore.MergeActivation`, `MergeActivatedDistinct` and `MergeActivatedOne` state it |
| `PatchStore.MergeActivation` | server/crms/patch/patch.py:406-430 | a parent is activated if and only if it is a candidate whose count equals its group size and whose row exists |
| `PatchStore.MergeActivatedDistinct` | server/crms/patch/patch.py:420-430 | no parent is returned twice |
| `PatchStore.FullGroupsDistinct` | server/crms/patch/patch.py:422-430 | scanning distinct candidates gives distinct parents |
| `PatchStore.MergeEffect` | server/crms/patch/patch.py:435-452 | a row survives the merge if and only if it is not a child of an activated parent; an activated parent gains `activate` and keeps its `deleted` flag; every other surviving row is unchanged |
| `PatchStore.FullGroupsEmpty` | server/crms/patch/patch.py:432-433 | when no candidate qualifies, no parent is activated |
| `PatchStore.MergeNoFullGroup` | server/crms/patch/patch.py:432-433 | with no full group whose row exists, `merge_cells` returns nothing and changes nothing |
| `PatchStore.MergeNothingActivated` | server/crms/patch/patch.py:432-433 | when no parent is activated the store is unchanged |
| `PatchStore.ActivateKeepsStore` | server/crms/patch/patch.py:436-437 | setting `activate` on stored rows keeps the store consistent and its keys |
| `PatchStore.MergeCellsOf` | server/crms/patch/patch.py:435-452 | activating the listed keys and then dropping the collected child keys gives the merged store |
| `PatchStore.DropRows` | server/crms/patch/patch.py:451-452 | `cache.drop(index=keys)`, as a definition: the rows whose keys are listed are removed; `PatchStore.DropKeepsStore`, `DropRowsSame` and `MergeEffect` state its effect |
| `PatchStore.DropKeepsStore` | server/crms/patch/patch.py:451-452 | dropping rows keeps the store consistent |
| `PatchStore.DropRowsSame` | server/crms/patch/patch.py:440-452 | two key lists that agree on the stored keys drop the same rows (only stored child keys are collected) |
| `PatchStore.ActivateRowsSame` | server/crms/patch/patch.py:436-437 | two key sets that agree on the stored keys activate the same rows |
| `PatchStore.CandidatesOfChildren` | server/crms/patch/patch.py:407-414 | the first i children of p produce p as their candidate i times |
| `PatchStore.CandidateOfChild` | server/crms/patch/patch.py:408-414 | the next child of p appends p once more to the candidates |
| `PatchStore.MergeCandidatesStep` | server/crms/patch/patch.py:408-414 | an input above level 1 appends its parent to the candidates |
| `PatchStore.RepeatCount` | server/crms/patch/patch.py:420 | the `Counter` of p repeated n times counts n |
| `PatchStore.DistinctRepeat` | server/crms/patch/patch.py:420-422 | the `Counter` of p repeated iterates over p alone |
| `PatchStore.SubdivideOne` | server/crms/patch/patch.py:240-335 | subdividing one live cell returns its children; afterwards it is stored as (not deleted, not activated), and each child is stored, activated exactly when its row already existed |
| `PatchStore.SubdivideOneResult` | server/crms/patch/patch.py:252-303 | subdividing one live cell whose level has a rule returns exactly its children |
| `PatchStore.SubdivideOneRows` | server/crms/patch/patch.py:305-333 | the store rows after subdividing one live cell |
| `PatchStore.SubdivideOneAt` | server/crms/patch/patch.py:305-333 | per key, the store after subdividing one cell |
| `PatchStore.ValidParentsSingle` | server/crms/patch/patch.py:256-264 | a single live input is its own valid parent list |
| `PatchStore.ChildKeysDiffer` | server/crms/patch/patch.py:217-238 | children lie one level down and in range, so none has the parent's key |
| `PatchStore.ChildrenCandidates` | server/crms/patch/patch.py:406-422 | exactly the children of p form one full group for p |
| `PatchStore.MergeOneGroup` | server/crms/patch/patch.py:389-455 | merging exactly the children of a stored parent activates that parent alone, returns it, and drops the stored children |
| `PatchStore.MergeOneGroupCells` | server/crms/patch/patch.py:435-452 | the store after merging exactly the children of p |
| `PatchStore.MergeActivatedOne` | server/crms/patch/patch.py:419-430 | merging exactly the children of a stored parent activates [p] |
| `PatchStore.SubdivideThenMerge` | server/crms/patch/patch.py:240-455 | subdividing a live cell and then merging its children returns that cell, and the store ends as the original store without the children's rows |
| `PatchStore.ReactivatedParent` | server/crms/patch/patch.py:435-452 | reactivating the parent and dropping the child rows undoes the subdivision, up to the child rows that existed before it |
| `PatchTable.WriteSlice` | server/crms/patch/patch.py:291-292 | the slice assignment writes exactly the given values into positions from..from+n and leaves every other position unchanged |
| `PatchTable.SliceAfterWrite` | server/crms/patch/patch.py:289-295 | after writing a block right behind a filled prefix, the prefix extended by the block is filled |
| `PatchTable.CandidatesStep` | server/crms/patch/patch.py:408-414 | one more input of the candidate loop either appends its parent (level 2 and up) or is skipped (level 1) |
| `PatchTable.CountParents` | server/crms/patch/patch.py:420 | the `Counter` loop yields the distinct candidates in first-seen order together with the multiset of their counts |
| `PatchTable.KeysOfCells` | server/crms/patch/patch.py:427-429 | the keys collected next to the activated parents are exactly their keys |
| `PatchTable.ChildrenInGrid` | server/crms/patch/patch.py:217-238 | the children of a cell of the grid whose level has a rule are cells of the grid |
| `PatchTable.AtLevel` | server/crms/patch/patch.py:287-292 | pairing each child id with the child level gives the cells `(level + 1, id)` in order |
| `PatchTable.FillStep` | server/crms/patch/patch.py:281-295 | filling one parent's children behind the filled prefix extends it to the children of one more parent |
| `PatchTable.Patch.constructor` | server/crms/patch/patch.py:28-129 | the new patch derives its rules and level table from the schema and holds the default level-1 store |
| `PatchTable.Patch.ParentGlobalId` | server/crms/patch/patch.py:181-194 | `_get_parent_global_id` computes the parent id of the geometry (`Geometry.Parent`) |
| `PatchTable.Patch.ChildrenGlobalIds` | server/crms/patch/patch.py:217-238 | `None` for a level outside the level table; otherwise the sw*sh children in local-id order |
| `PatchTable.Patch.LiveParents` | server/crms/patch/patch.py:256-266 | the loop returns exactly the valid parents of the listed cells |
| `PatchTable.Patch.CountChildren` | server/crms/patch/patch.py:269-273 | the count succeeds if and only if every parent's level has a rule (otherwise `IndexError`), and is then the total number of children |
| `PatchTable.Patch.CollectChildren` | server/crms/patch/patch.py:276-303 | the pre-allocated arrays end up holding the children of every valid parent, parent by parent |
| `PatchTable.Patch.Subdivide` | server/crms/patch/patch.py:240-335 | `subdivide_cells` returns the specified children (or the error) and leaves the store as `SubdivideCells` describes, or unchanged on error |
| `PatchTable.Patch.ParentCandidates` | server/crms/patch/patch.py:403-416 | the candidate loop succeeds if and only if every input above level 1 has a level entry, and then yields the `MergeCandidates` list |
| `PatchTable.Patch.FullParents` | server/crms/patch/patch.py:419-430 | the activation loop gives the full groups, together with one key per activated parent |
| `PatchTable.Patch.StoredChildKeys` | server/crms/patch/patch.py:441-448 | the keys collected for one parent are exactly its children's keys that are stored |
| `PatchTable.Patch.ExistingChildKeys` | server/crms/patch/patch.py:440-448 | the keys to delete are exactly the stored child keys of the activated parents |
| `PatchTable.Patch.ActivateAndDrop` | server/crms/patch/patch.py:435-452 | activating the parents and then dropping their stored children gives the specified merged store |
| `PatchTable.Patch.Merge` | server/crms/patch/patch.py:389-455 | `merge_cells` succeeds if and only if the input has level entries; it returns the activated parents and leaves the store as `MergeCells` describes |
| `PatchTable.Patch.StoredKeys` | server/crms/patch/patch.py:345-346 | the existing keys are exactly the listed keys that are stored |
| `PatchTable.Patch.LiveAmong` | server/crms/patch/patch.py:352-353 | the filtered rows are exactly the existing ones that are activated and not deleted |
| `PatchTable.Patch.Delete` | server/crms/patch/patch.py:337-359 | `delete_cells` leaves the store as `DeleteCells` describes |
| `PatchTable.Patch.Restore` | server/crms/patch/patch.py:457-476 | `restore_cells` leaves the store as `RestoreCells` describes |
| `PatchTable.Patch.ActivatedCellInfos` | server/crms/patch/patch.py:478-488 | a cell is listed if and only if it is a cell of the grid whose stored row is activated |
| `PatchTable.Patch.DeletedCellInfos` | server/crms/patch/patch.py:490-499 | a cell is listed if and only if it is a cell of the grid whose stored row is deleted |
| `Geometry.DeriveRules` | server/crms/patch/patch.py:55-71 | the rule list is the first-level rule, then one ratio per pair of consecutive levels, then `[1, 1]` |
| `Geometry.DeriveRulesWellFormed` | server/templates/grid/hooks.py:1296-1309 | positive factors give a well-formed rule list that ends in `[1, 1]` |
| `Geometry.DimsPositive` | server/crms/patch/patch.py:84-91 | every level has a positive number of columns and rows |
| `Geometry.BuildLevelInfo` | server/crms/patch/patch.py:84-91 | `level_info` has one entry per rule and starts at 1x1; each entry is the previous one scaled by its rule, which is the closed form Width/Height |
| `Geometry.ChildAtOf` | server/crms/patch/patch.py:221-236 | the child formula read through a level table equals the one over the level width |
| `Geometry.Children` | server/templates/grid/hooks.py:465-492 | a cell has sw*sh children |
| `Geometry.ChildGidCoords` | server/crms/patch/patch.py:230-236 | child k lies at column `u*sw + k % sw` and row `v*sh + k / sw` of the child level |
| `Geometry.ChildGidBound` | server/crms/patch/patch.py:228-236 | child ids of a cell inside its level lie inside the child level |
| `Geometry.ChildGidInjective` | server/crms/patch/patch.py:230-236 | distinct local ids give distinct child ids |
| `Geometry.ParentOfChildGid` | server/crms/patch/patch.py:189-194 | the parent of child k is the cell that produced it |
| `Geometry.ChildOfParentGid` | server/crms/patch/patch.py:189-194 | every cell of the child level is child `(v % sh) * sw + u % sw` of its parent |
| `Geometry.ParentGidBelow` | server/crms/patch/patch.py:189-194 | a parent id never exceeds the child id |
| `Geometry.WidthStep` | server/templates/grid/hooks.py:1312-1318 | each level's columns and rows are the previous level's times its rule, and are positive |
| `Geometry.ChildInLevel` | server/crms/patch/patch.py:217-238 | each child of a cell of a level lies inside the next level |
| `Geometry.ChildrenDistinct` | server/crms/patch/patch.py:217-238 | the children of one cell are pairwise distinct |
| `Geometry.ParentOfChild` | server/crms/patch/patch.py:181-238 | `_get_parent_global_id` of any child is the cell it came from |
| `Geometry.ChildOfParent` | server/crms/patch/patch.py:181-238 | every cell is among the children of its parent |
| `Geometry.ParentBelow` | server/crms/patch/patch.py:181-194 | a parent id never exceeds the cell's id |
| `Assembly.LevelByte` | server/templates/grid/hooks.py:1339 | `key[0]` is the decoded level |
| `Assembly.Ancestors` | server/templates/grid/hooks.py:375-391 | a cell of level L has L-1 ancestors. Ancestor i is at level L-1-i with an id no greater than the cell's, so the virtual root is skipped |
| `Assembly.AncestorsChain` | server/templates/grid/hooks.py:378-390 | the first ancestor is the parent, each next one is the parent of the one before, and none is at level 0 |
| `Assembly.AncestorsTransitive` | server/templates/grid/hooks.py:375-391 | an ancestor's ancestors are ancestors |
| `Assembly.EncodeAll` | server/templates/grid/hooks.py:389 | one key per ancestor |
| `Assembly.EncodeAllMember` | server/templates/grid/hooks.py:389 | a key is among the encoded ancestors if and only if it decodes to one of them |
| `Assembly.EncodeAllSnoc` | server/templates/grid/hooks.py:389 | appending an ancestor appends its key |
| `Assembly.AncestorsExtend` | server/templates/grid/hooks.py:378-390 | the ancestor chain is the part collected so far, the next parent, and the rest |
| `Assembly.AncestorsFit` | server/templates/grid/hooks.py:389 | every ancestor of a key fits the `!BQ` key format |
| `Assembly.AncestorStep` | server/templates/grid/hooks.py:379-390 | one loop step computes the parent, which is at most the child id, and the chain continues from it |
| `Assembly.AllAncestorKeys` | server/templates/grid/hooks.py:375-391 | `_get_all_ancestor_keys` returns the encoded ancestors of the key's cell, nearest first |
| `Assembly.AncestorKeyTransitive` | server/templates/grid/hooks.py:375-391 | an ancestor of an ancestor key is an ancestor key |
| `Assembly.DominatedAboveOne` | server/templates/grid/hooks.py:1338 | being covered from level 2 upwards is having a descendant in the set (level 1 has no parent) |
| `Assembly.PruneStep` | server/templates/grid/hooks.py:1339-1345 | the pass for one level removes exactly the keys that have a descendant at that level or deeper |
| `Assembly.PruneConflicts` | server/templates/grid/hooks.py:1338-1345 | after pruning, a key survives if and only if it was activated and no activated key is its descendant; afterwards no surviving key is an ancestor of another |
| `Assembly.LevelAncestors` | server/templates/grid/hooks.py:1339-1343 | the removal set of one level is exactly the ancestors of its keys |
| `Assembly.AncestorListMember` | server/templates/grid/hooks.py:1342 | a key's ancestor list holds exactly its ancestor keys |
| `Assembly.CollectAncestors` | server/templates/grid/hooks.py:1341-1343 | `update` with one more key's ancestors covers that key's ancestors as well |
| `Assembly.RemapPlacement` | server/templates/grid/hooks.py:419-434 | a remapped key keeps its level. When the shifted column and row lie inside the meta level, they are the meta column and row of the key |
| `Assembly.UpdateCellsByPatch` | server/templates/grid/hooks.py:393-435 | when every activated cell remaps, `_update_cells_by_patch` adds exactly their remapped keys to the set. Otherwise it raises the first cell's error: IndexError for a level missing from the meta or the patch level table, ZeroDivisionError for a patch level without columns, `struct.error` for a negative id or one of 2^64 or more |
| `GridCache.ToggleCode` | server/templates/grid/hooks.py:262-273 | a side code maps to the opposite side (`(code + 2) % 4`); any other value maps to the invalid code |
| `GridCache.ToggleInvolution` | server/templates/grid/hooks.py:268-273 | the toggle maps side codes to side codes, is its own inverse and has no fixed point |
| `GridCache.RowOfLocal` | server/templates/grid/hooks.py:278 | a local id lies in the last row of the sw x sh block if and only if it passes the south check |
| `GridCache.AdjacentSelectsSide` | server/templates/grid/hooks.py:275-278 | each adjacency check selects exactly the children on the side that touches the searching cell: the bottom row (local row 0) of a north neighbour, the top row (local row sh-1) of a south neighbour, the right column of a west neighbour and the left column of an east neighbour |
| `GridCache.CellFromUv` | server/templates/grid/hooks.py:437-445 | `_get_cell_from_uv` gives a cell if and only if the level and the position lie inside the grid, and then the cell `(level, v*cols + u)` |
| `GridCache.EmptyTable` | server/templates/grid/hooks.py:308-309 | four empty sets for each cell |
| `GridCache.AddSet` | server/templates/grid/hooks.py:462-463 | adding to one entry changes only that entry, by exactly the added elements |
| `GridCache.AddPair` | server/templates/grid/hooks.py:459-463 | the two additions keep the table's shape |
| `GridCache.AddPairSymmetric` | server/templates/grid/hooks.py:459-463 | recording j on side d of i and i on the opposite side of j keeps the neighbour table symmetric |
| `GridCache.SymmetricIff` | server/templates/grid/hooks.py:459-463 | in a symmetric table, j is a side-d neighbour of i if and only if i is an opposite-side neighbour of j |
| `GridCache.EmptySymmetric` | server/templates/grid/hooks.py:309 | the fresh neighbour table is symmetric |
| `GridCache.PySlice` | server/templates/grid/hooks.py:330 | a Python slice with its end clamped to the length; an end before the start gives nothing |
| `GridCache.GridCache.constructor` | server/templates/grid/hooks.py:297-309 | the cache keeps the data, has one cell per 9 bytes, and starts with no fractions and empty edge and neighbour tables |
| `GridCache.GridCache.IndexInRange` | server/templates/grid/hooks.py:304 | every mapped position is a position of the array holding that cell |
| `GridCache.GridCache.HasCell` | server/templates/grid/hooks.py:322-323 | `has_cell` holds if and only if the cell is in the array |
| `GridCache.GridCache.SliceCells` | server/templates/grid/hooks.py:325-330 | `slice_cells` raises `IndexError` if and only if the start is outside [0, len]. Otherwise it returns the keys of the cells from start up to `min(start + length, len)` |
| `GridCache.GridCache.SliceChunks` | server/templates/grid/hooks.py:328-330 | bytes 9s..9e of the data decode to the cells s..e |
| `GridCache.GridCache.SliceEdges` | server/templates/grid/hooks.py:332-336 | `slice_edges` raises on the same starts as `slice_cells` and otherwise returns the edge sets of the same cells |
| `GridCache.Open` | server/templates/grid/hooks.py:297-304 | the constructor raises `ValueError` if and only if the data length is not a multiple of 9 |
| `GridCache.UpdateCellNeighbour` | server/templates/grid/hooks.py:450-463 | with an invalid code nothing changes. Otherwise exactly the pair of mirrored entries is added, and the table stays symmetric |
| `Neighbours.ChildrenGlobalIds` | server/templates/grid/hooks.py:465-491 | `[]` for a level outside the table, otherwise the children in local-id order |
| `Neighbours.FoundCached` | server/templates/grid/hooks.py:599-625 | every cell the search finds is in the cache |
| `Neighbours.BelowCached` | server/templates/grid/hooks.py:616-625 | everything found under the children of a popped cell is in the cache |
| `Neighbours.FoundFromCached` | server/templates/grid/hooks.py:616-625 | everything found from child k onwards is in the cache |
| `Neighbours.FoundDeeper` | server/templates/grid/hooks.py:599-625 | found cells lie at the searched level or deeper, and strictly deeper when the searched cell is not cached |
| `Neighbours.FoundFromDeeper` | server/templates/grid/hooks.py:616-625 | cells found among the children lie strictly deeper than the parent |
| `Neighbours.PositionsSnoc` | server/templates/grid/hooks.py:627-628 | one more found cell adds its cache position |
| `Neighbours.AddedNone` | server/templates/grid/hooks.py:627-628 | recording no neighbours changes nothing |
| `Neighbours.AddedStep` | server/templates/grid/hooks.py:627-628 | recording one more neighbour extends the recorded set by it |
| `Neighbours.AddedSingle` | server/templates/grid/hooks.py:600-601 | a cached neighbour is recorded alone |
| `Neighbours.Weight` | server/templates/grid/hooks.py:606-625 | the bound on the work left under a cell is positive, which is what ends the search |
| `Neighbours.ElementsSnoc` | server/templates/grid/hooks.py:623 | appending to a list adds an element |
| `Neighbours.StackPush` | server/templates/grid/hooks.py:625 | pushing a cell adds what it will find, and its weight, to the stack's |
| `Neighbours.ChildStep` | server/templates/grid/hooks.py:616-625 | what a popped cell finds is split child by child between the result list and the stack |
| `Neighbours.WeightStep` | server/templates/grid/hooks.py:606-625 | a level's weight is one plus sw*sh times the next level's |
| `Neighbours.SkipChild` | server/templates/grid/hooks.py:617-619 | a child that fails the adjacency check changes nothing |
| `Neighbours.CollectChild` | server/templates/grid/hooks.py:622-623 | an adjacent cached child joins the result list |
| `Neighbours.PushChild` | server/templates/grid/hooks.py:624-625 | an adjacent uncached child goes onto the stack and brings its weight |
| `Neighbours.ScanChild` | server/templates/grid/hooks.py:616-625 | one inner-loop step keeps the stack uncached and the list cached, keeps what is still to be found, and adds at most one child's weight |
| `Neighbours.PushChildren` | server/templates/grid/hooks.py:607-625 | processing a popped cell moves its finds into the list and the stack, so the weight strictly decreases |
| `Neighbours.SearchDescendants` | server/templates/grid/hooks.py:603-625 | the stack search collects exactly the cached descendants of the neighbour along the shared side |
| `Neighbours.FindNeighboursAlongEdge` | server/templates/grid/hooks.py:591-628 | the neighbour table gains exactly the found cells on side `code` of the cell, mirrored, and nothing else changes |
| `Neighbours.SideSets` | server/templates/grid/hooks.py:638-653 | the four sides' finds, one set per side code |
| `Neighbours.AddedUpToStep` | server/templates/grid/hooks.py:638-653 | the side-by-side additions compose |
| `Neighbours.FindSide` | server/templates/grid/hooks.py:639-653 | one side of `_find_cell_neighbours` records exactly that side's finds, or nothing when the adjacent position is outside the grid |
| `Neighbours.FindCellSides` | server/templates/grid/hooks.py:632-653 | the four sides, in the order north, west, south, east, record their finds |
| `Neighbours.FindCellNeighbours` | server/templates/grid/hooks.py:630-653 | after the pass, x is a side-e neighbour of k if and only if it was before or some cell's search recorded it |
| `Neighbours.RecordedStep` | server/templates/grid/hooks.py:631-653 | one more cell's sides extend the recorded relation by exactly that cell's finds |
| `Neighbours.RecordedExact` | server/templates/grid/hooks.py:630-653 | on sorted keys, x is recorded as a side-e neighbour of k if and only if the search across side e of k found x, or the search across the opposite side of x found k |
| `Fractions.GcdDivides` | server/templates/grid/hooks.py:655-659 | the final `a` of the loop divides both inputs and is positive unless both are 0 |
| `Fractions.CommonDivisorDividesGcd` | server/templates/grid/hooks.py:655-659 | every common divisor divides that `a`, which is therefore the greatest |
| `Fractions.Reduced` | server/templates/grid/hooks.py:660 | a positive divisor gives a positive denominator |
| `Fractions.SimplifyFraction` | server/templates/grid/hooks.py:655-660 | the Euclid loop ends with the gcd, and the result is `[n // gcd, m // gcd]` |
| `Fractions.ReducedShape` | server/templates/grid/hooks.py:655-660 | n and m are the gcd times the reduced numerator and denominator |
| `Fractions.ReducedSameRatio` | server/templates/grid/hooks.py:655-660 | the simplified fraction has the same value as n/m |
| `Fractions.ReducedCoprime` | server/templates/grid/hooks.py:655-660 | the simplified fraction is in lowest terms |
| `Fractions.ReducedZero` | server/templates/grid/hooks.py:655-660 | `_simplify_fraction(0, m)` is `[0, 1]` |
| `Fractions.GetFractionalCoords` | server/templates/grid/hooks.py:662-674 | `_get_fractional_coords` returns the reduced fractions of the cell's column and row bounds |
| `Fractions.CellFractionsExact` | server/templates/grid/hooks.py:662-674 | each side fraction equals the cell's column or row boundary divided by the level extent, exactly and in lowest terms |
| `Edges.Canonical` | server/templates/grid/hooks.py:694-697 | the varying range comes out as either the given pair or the swapped pair, and its start is never greater than its end |
| `Edges.CanonicalSymmetric` | server/templates/grid/hooks.py:694-697 | a range and its reverse give the same canonical pair, unless the two ends are different fractions of the same value |
| `Edges.PackEdgeKey` | server/templates/grid/hooks.py:710-716 | the `!BIIIIII` key is 25 bytes |
| `Edges.UnpackEdgeKey` | server/templates/grid/hooks.py:710-716 | unpacking gives fields that fit the format |
| `Edges.UnpackOfPack` | server/templates/grid/hooks.py:710-716 | unpacking a packed key gives its fields back |
| `Edges.PackInjective` | server/templates/grid/hooks.py:710-721 | two keys are equal if and only if all their fields are, so the dictionary merges exactly the repeated edges |
| `Edges.EdgeKey` | server/templates/grid/hooks.py:694-716 | the edge key of a range is 25 bytes |
| `Edges.EdgeKeyFields` | server/templates/grid/hooks.py:694-716 | the key holds the direction bit, the range in canonical order and the shared fraction |
| `Edges.Oriented` | server/templates/grid/hooks.py:724 | the adjacency entry holds exactly the cell and its neighbour, in either order; the order itself (`[b, a]` for a north or west code, `[a, b]` otherwise) is the definition, and `Edges.EdgeIndex.GetEdgeIndex` and `TopoReader.NsOfWrittenSide` state what it means for the ns layout |
| `Edges.LookupSpec` | server/templates/grid/hooks.py:718-728 | an existing key returns its index and nothing grows. A new key gets the next index, and each of the three lists grows by exactly its key, index and cell pair. The result always indexes the key |
| `Edges.EmptyStateOk` | server/templates/grid/hooks.py:1373-1375 | the empty lists of the assembly are consistent |
| `Edges.EdgeIndex.constructor` | server/templates/grid/hooks.py:1373-1375 | a new edge index is empty and consistent |
| `Edges.EdgeIndex.GetEdgeIndex` | server/templates/grid/hooks.py:676-728 | `ValueError` if and only if the direction is not 0 or 1, or the range is not three pairs. `ZeroDivisionError` if and only if a varying denominator is 0. `struct.error` if and only if a field does not fit `!I`; a shared denominator of 0 fits and is packed. Otherwise the key is looked up, or appended together with its oriented cell pair |
| `Edges.AddEdgeToCell` | server/templates/grid/hooks.py:730-734 | `_add_edge_to_cell` adds the edge index to exactly one entry of the edge table |
| `Edges.Entries` | server/templates/grid/hooks.py:763-772 | one processed entry per neighbour, in order, each carrying its index |
| `Edges.InsertByStart` | server/templates/grid/hooks.py:775 | inserting keeps the entries as a multiset plus the new one |
| `Edges.InsertSorted` | server/templates/grid/hooks.py:775 | inserting into a sorted list keeps it sorted by start |
| `Edges.SortByStart` | server/templates/grid/hooks.py:775 | the sort is a permutation of the neighbours, sorted by start |
| `Edges.PairsLinks` | server/templates/grid/hooks.py:787-817 | the edges up to neighbour n run without a break from the first neighbour's start to neighbour n's end |
| `Edges.PairsLastLinks` | server/templates/grid/hooks.py:787-826 | the neighbours' span and gap edges, with the last span and the tail gap, run without a break from the first neighbour's start to the cell's max |
| `Edges.NeighbourPlanLinks` | server/templates/grid/hooks.py:777-826 | in the third case the edges run without a break from the cell's min to its max |
| `Edges.SpansUpTo` | server/templates/grid/hooks.py:787-817 | one span edge per neighbour so far |
| `Edges.SpansUpToIndex` | server/templates/grid/hooks.py:787-817 | the i-th span edge is neighbour i's |
| `Edges.PairsSpans` | server/templates/grid/hooks.py:787-807 | the span edges of the loop are those of neighbours 0 to n-1 |
| `Edges.SpansUpToSnoc` | server/templates/grid/hooks.py:787-817 | one more neighbour appends its span edge |
| `Edges.HeadGapSpans` | server/templates/grid/hooks.py:777-784 | the gap before the first neighbour has no neighbour |
| `Edges.LastSpans` | server/templates/grid/hooks.py:809-826 | the tail contributes exactly the last neighbour's span edge |
| `Edges.NeighbourPlanSpans` | server/templates/grid/hooks.py:777-826 | the span edges of the third case are the sorted neighbours' spans, one each, in order |
| `Edges.SidePlanShape` | server/templates/grid/hooks.py:746-826 | with no neighbour, one edge owned by the cell alone. With a coarser neighbour, one edge shared with it. Otherwise one span edge per sorted neighbour, with gap edges owned by the cell. In every case the edges run without a break from the start of the side to its end |
| `Edges.Step` | server/templates/grid/hooks.py:792-798 | a call keeps the edge table's shape |
| `Edges.Apply` | server/templates/grid/hooks.py:749-826 | the calls of a plan keep the edge table's shape |
| `Edges.ApplySnoc` | server/templates/grid/hooks.py:749-826 | running a plan with one more call is running the plan, then the call |
| `Edges.StepSpec` | server/templates/grid/hooks.py:792-798 | one `_get_edge_index` with its `_add_edge_to_cell`s keeps the index consistent and only adds. It leaves the call's edge held by the cell, and by the neighbour on the opposite side when there is one |
| `Edges.HoldsPersists` | server/templates/grid/hooks.py:749-826 | later calls never take back an edge an earlier call gave |
| `Edges.ApplySpec` | server/templates/grid/hooks.py:749-826 | running a side's calls keeps the index consistent, only adds, and leaves every call's edge held by both cells it separates |
| `Edges.ApplyAppend` | server/templates/grid/hooks.py:749-826 | running two plans one after the other is running their concatenation |
| `Edges.SortedOk` | server/templates/grid/hooks.py:775 | sorting keeps every entry usable |
| `Edges.PlanOkAppend` | server/templates/grid/hooks.py:749-826 | usable plans concatenate |
| `Edges.PairsOk` | server/templates/grid/hooks.py:787-807 | the calls of the pair loop are usable |
| `Edges.NeighbourPlanOk` | server/templates/grid/hooks.py:777-826 | every call of the third case has usable fractions and existing cells |
| `Edges.SidePlanOk` | server/templates/grid/hooks.py:749-826 | every call of a side has usable fractions and names cells that exist |
| `Edges.SpanReqsMember` | server/templates/grid/hooks.py:787-817 | a span edge is one of the plan's calls |
| `Edges.SidePlanCovers` | server/templates/grid/hooks.py:749-817 | every neighbour of the side is the other cell of one of its calls |
| `Edges.EntriesOkOf` | server/templates/grid/hooks.py:763-772 | the processed neighbours of cells in the cache are usable |
| `Edges.SideCallsOk` | server/templates/grid/hooks.py:736-826 | the calls a side makes are usable |
| `Edges.EntriesSnoc` | server/templates/grid/hooks.py:764-772 | one more neighbour appends one entry |
| `Edges.EmitEdge` | server/templates/grid/hooks.py:792-798 | one `_get_edge_index` and its `_add_edge_to_cell`s is one step of the plan |
| `Edges.ApplyOne` | server/templates/grid/hooks.py:792-798 | a plan of one call is that call |
| `Edges.EmitPiece` | server/templates/grid/hooks.py:787-807 | one iteration of the pair loop runs that neighbour's span edge and the gap after it, if any |
| `Edges.EmitLast` | server/templates/grid/hooks.py:809-826 | the last neighbour's span edge and the gap after it |
| `Edges.ProcessNeighbours` | server/templates/grid/hooks.py:763-772 | the processing loop builds the entries |
| `Edges.EmitHeadGap` | server/templates/grid/hooks.py:777-784 | the gap edge before the first neighbour, when its start differs from the cell's |
| `Edges.EmitPairs` | server/templates/grid/hooks.py:787-807 | the pair loop runs the calls of the pieces, in order |
| `Edges.EmitNeighbourEdges` | server/templates/grid/hooks.py:762-826 | the third case runs the neighbour plan |
| `Edges.CalcSideEdges` | server/templates/grid/hooks.py:736-826 | one side of a cell makes exactly the calls of its plan, in order, and touches only the edge index and the edge table |
| `CellEdges.CalcHorizontalEdges` | server/templates/grid/hooks.py:736-826 | `_calc_horizontal_edges` is the side procedure with direction 1 over the x fractions |
| `CellEdges.CalcVerticalEdges` | server/templates/grid/hooks.py:828-918 | `_calc_vertical_edges` is the side procedure with direction 0 over the y fractions |
| `CellEdges.ValidNbOk` | server/templates/grid/hooks.py:931-945 | the recorded neighbours are cache positions |
| `CellEdges.SideDonePersists` | server/templates/grid/hooks.py:931-945 | a finished side stays finished as later sides only add |
| `CellEdges.CellDonePersists` | server/templates/grid/hooks.py:931-945 | a finished cell stays finished |
| `CellEdges.SideCallsCover` | server/templates/grid/hooks.py:736-918 | a side always makes at least one call, and each neighbour it was given is the other cell of one of them |
| `CellEdges.HeldPlanShares` | server/templates/grid/hooks.py:736-918 | once every call holds, the side has an edge and shares one with each neighbour it covers |
| `CellEdges.SideCallsSpec` | server/templates/grid/hooks.py:736-918 | running one side keeps the index consistent and gives the side an edge. It also shares an edge with the opposite side of every neighbour |
| `CellEdges.SetToList` | server/templates/grid/hooks.py:935 | `list(set)` holds each element of the set exactly once |
| `CellEdges.AllFractions` | server/templates/grid/hooks.py:927-929 | one fraction entry per cell |
| `CellEdges.ReducedBound` | server/templates/grid/hooks.py:655-660 | reducing does not grow the numerator or the denominator |
| `CellEdges.SidesOk` | server/templates/grid/hooks.py:662-674 | a cell's four fractions have positive denominators and fit `!I` |
| `CellEdges.CellFractionsOk` | server/templates/grid/hooks.py:662-674 | a cell inside its level has four usable side fractions |
| `CellEdges.AllFractionsOk` | server/templates/grid/hooks.py:927-929 | all cells' fractions are usable |
| `CellEdges.FillFractions` | server/templates/grid/hooks.py:927-929 | the first loop fills `fract_coords` in array order |
| `CellEdges.CellSides` | server/templates/grid/hooks.py:932-945 | the four sides of one cell keep the index consistent and leave the cell finished |
| `CellEdges.SideStep` | server/templates/grid/hooks.py:935-945 | one side call with what it achieves for that side |
| `CellEdges.DoneBeforeStep` | server/templates/grid/hooks.py:931-945 | finishing cell k extends the finished prefix |
| `CellEdges.AllCellSides` | server/templates/grid/hooks.py:931-945 | the second loop finishes every cell |
| `CellEdges.CalcCellEdges` | server/templates/grid/hooks.py:920-945 | every side of every cell holds an edge, and every recorded neighbour pair shares an edge on the touching sides. The index and the cells' edge sets agree, and nothing is ever removed |
| `Records.BoundsBytes` | server/templates/grid/hooks.py:970 | the four bound coordinates take 32 bytes, as four '!d' fields |
| `Records.SetMin` | server/templates/grid/hooks.py:977-980 | the least element of a non-empty id set is a member of it and no larger than any member |
| `Records.SortedIds` | server/templates/grid/hooks.py:977-980 | `sorted(s)` holds exactly the members of s, once each, in strictly increasing order |
| `Records.SideIds` | server/templates/grid/hooks.py:977-980 | the ids of one side are the sorted ids, each plus one, with one entry per member |
| `Records.U64s` | server/templates/grid/hooks.py:1000-1001 | packing n values as '!Q' gives 8n bytes |
| `Records.SideIdsFit` | server/templates/grid/hooks.py:977-980 | when every id + 1 fits 64 bits, every one-based id of the side fits '!Q' |
| `Records.CellHeader` | server/templates/grid/hooks.py:968-976 | the index, four bounds, altitude, type and four counts pack to the 53-byte header '!QdddddBBBBB' |
| `Records.CellIds` | server/templates/grid/hooks.py:977-980 | the packed id lists take 8 bytes per edge of the four sides |
| `Records.GenerateCellRecord` | server/templates/grid/hooks.py:960-1007 | the record exists exactly when the index, the type, the four counts and every id fit their fields; otherwise it is a struct.error. Its length is 53 + 8 per edge |
| `Records.GenerateEdgeRecord` | server/templates/grid/hooks.py:1158-1185 | a key that is not 25 bytes is a struct.error; direction above 1 is the UnboundLocalError; a zero denominator under direction 0 or 1 is the ZeroDivisionError; otherwise the record exists exactly when the index, both cells and the type fit. Every record is 69 bytes |
| `Records.Framed` | server/templates/grid/hooks.py:1103-1106 | a frame exists exactly when the record does and its length fits the u32 prefix; it is 4 + the record's length and ends with the record |
| `Records.Concat` | server/templates/grid/hooks.py:1139-1141 | the outputs written one after the other, as a definition: the bytes of every output in order, or the first failure; `Records.ConcatAppend`, `ConcatSnoc` and `ConcatStep` state how it composes |
| `Records.ConcatAppend` | server/templates/grid/hooks.py:1139-1141 | concatenating two runs of outputs is the first run's result followed by the second's, the first failure winning |
| `Records.ConcatSnoc` | server/templates/grid/hooks.py:1105-1106 | appending one more output extends the concatenation by that output |
| `Records.ConcatStep` | server/templates/grid/hooks.py:1075-1106 | one more frame of a successful prefix extends it; a failing frame is the failure of the whole stream |
| `Records.BatchStep` | server/templates/grid/hooks.py:1139-1141 | the output so far followed by one batch's output is the concatenation up to the batch's end |
| `Records.CellFrames` | server/templates/grid/hooks.py:1075-1106 | one framed record per cell |
| `Records.CellFrameOk` | server/templates/grid/hooks.py:1102-1106 | a cell's frame exists exactly when its record fits its fields: the u32 prefix never overflows |
| `Records.BatchCellRecords` | server/templates/grid/hooks.py:1061-1111 | the worker's output is the concatenation of the framed records of its cells at positions offset + i, with -9999.0 and 0 where the rasters give nothing; the first failing cell's error is raised |
| `Records.CellFramesSlice` | server/templates/grid/hooks.py:1122-1125 | a batch sliced from the cache frames its cells exactly as the whole stream does at those positions |
| `Records.CellBatch` | server/templates/grid/hooks.py:1122-1125 | the batch at offset i is the concatenation of the stream's frames from i to i + 10000, cut at the cache's end |
| `Records.RecordCellTopology` | server/templates/grid/hooks.py:1113-1144 | the file is the concatenation of the framed records of all cells in cache order, as one sequential pass would write it |
| `Records.EdgeFrames` | server/templates/grid/hooks.py:1197-1235 | one framed record per edge |
| `Records.EdgeFramesSlice` | server/templates/grid/hooks.py:1250-1253 | a batch of edges frames its edges exactly as the whole stream does at those positions |
| `Records.SliceEdgeInfo` | server/templates/grid/hooks.py:1146-1156 | IndexError exactly when the start is not a position of the cache; otherwise both lists are cut at the same start and end, the end clamped to the cache's length |
| `Records.BatchEdgeRecords` | server/templates/grid/hooks.py:1187-1240 | the worker's output is the concatenation of the framed records of its edges at positions offset + i; the first failing edge's error is raised |
| `Records.RecordEdgeTopology` | server/templates/grid/hooks.py:1242-1269 | the file is the concatenation of the framed records of all edges in cache order |
| `TopoReader.U64List` | server/crms/grid.py:18-19 | unpacking n '!Q' fields gives n values |
| `TopoReader.U64sAt` | server/crms/grid.py:18-19 | the i-th 8 bytes of packed values are the i-th value in big-endian order |
| `TopoReader.U64ListElem` | server/crms/grid.py:18-19 | unpacking packed values gives back each value at its position |
| `TopoReader.U64ListOfU64s` | server/crms/grid.py:18-19 | unpacking what '!Q' packed gives back the list |
| `TopoReader.U64sAppend` | server/templates/grid/hooks.py:977-980 | packing two lists one after the other packs their concatenation |
| `TopoReader.SplitIds` | server/crms/grid.py:21-31 | the four lists have the record's left, right, bottom and top counts, and together they are all unpacked ids in order |
| `TopoReader.DecodeElement` | server/crms/grid.py:9-35 | a record decodes exactly when it has the 53-byte header and exactly 8 bytes per counted id; otherwise it is a struct.error |
| `TopoReader.DecodeSide` | server/crms/grid.py:61-74 | a record decodes exactly when it is 69 bytes long |
| `TopoReader.BoundsAtBytes` | server/crms/grid.py:12-14 | the four doubles read back at their offset are the bounds written there |
| `TopoReader.CellHeaderFields` | server/crms/grid.py:12 | each field of a packed cell header reads back at its offset |
| `TopoReader.CellIdsPacked` | server/templates/grid/hooks.py:977-980 | the id bytes of a cell record are the four one-based sorted lists packed in order |
| `TopoReader.SplitFour` | server/crms/grid.py:21-31 | lists concatenated and cut at their own lengths come back apart |
| `TopoReader.DecodeHeaderAndIds` | server/crms/grid.py:9-35 | a header with four counts followed by the packed lists decodes to exactly those fields and lists |
| `TopoReader.DecodeCellRecord` | server/crms/grid.py:9-35 | what the cell writer produces the reader decodes to the one-based index, the bounds, altitude and type, and the west, east, south and north ids as left, right, bottom and top |
| `TopoReader.DecodeEdgeRecord` | server/crms/grid.py:61-74 | what the edge writer produces the reader decodes to the one-based index, the key's direction, the bounds, both one-based cells (0 for none), the altitude and the type |
| `TopoReader.PrefixedPrefixed` | server/crms/grid.py:120-127 | records read in two steps are the records read together |
| `TopoReader.ReadRecords` | server/crms/grid.py:121-127 | the framing loop of `HydroElements` and `HydroSides` as a recursive definition. It reads a u32 length, then up to that many bytes, decodes them, and goes on after them. There is a struct.error when 1 to 3 bytes are left, and the result is empty at the end of the bytes. `TopoReader.ReadStream` proves the loop equal to it, and `ReadStreamOf` shows it inverts the writer |
| `TopoReader.ReadStep` | server/crms/grid.py:121-127 | one turn of the loop reads the u32 length, decodes that many bytes (stopping at the end of the buffer) and moves the cursor by 4 + length |
| `TopoReader.ReadStream` | server/crms/grid.py:119-127 | the cursor loop reads the same records as the recursive reading of the whole stream |
| `TopoReader.ReadElements` | server/crms/grid.py:113-127 | an empty file fails with the ValueError of `mmap.mmap`; any other file gives the records the framing loop reads from its bytes, or its struct.error |
| `TopoReader.ReadSides` | server/crms/grid.py:151-165 | an empty file fails with the ValueError of `mmap.mmap`; any other file gives the records the framing loop reads from its bytes, or its struct.error |
| `TopoReader.Frame` | server/templates/grid/hooks.py:1103-1106 | a frame is 4 bytes longer than its record |
| `TopoReader.ConcatFramed` | server/templates/grid/hooks.py:1139-1141 | when the concatenation of framed records succeeds, every record succeeded and the output is their framed stream |
| `TopoReader.AllOkCons` | server/templates/grid/hooks.py:1103-1106 | a successful frame means a successful record that fits the prefix |
| `TopoReader.AllOkPrefix` | server/templates/grid/hooks.py:1139-1141 | a prefix of successful records succeeds |
| `TopoReader.StreamCons` | server/templates/grid/hooks.py:1105-1106 | the stream of one more record is its frame followed by the rest |
| `TopoReader.ReadStreamOf` | server/crms/grid.py:119-127 | reading a written stream gives back its records decoded one by one, in order |
| `TopoReader.DecodeAllOk` | server/crms/grid.py:127 | when each record decodes to its element, the whole list decodes to the list of elements |
| `TopoReader.WrittenCellRead` | server/crms/grid.py:9-35 | the record of cell i in the written stream decodes to the element that describes it |
| `TopoReader.CellRecords` | server/templates/grid/hooks.py:1102 | one unframed record per cell |
| `TopoReader.CellRecordsDecode` | server/crms/grid.py:9-35 | all written cell records decode to the written elements |
| `TopoReader.ReadCellTopology` | server/crms/grid.py:113-127 | reading the file `_record_cell_topology` writes gives one element per cell, in cache order, each with the one-based index, position, samples and sorted one-based edge ids the writer used. The stream of no cells is the empty file, which the reader rejects |
| `TopoReader.WrittenEdgeRead` | server/crms/grid.py:61-74 | the record of edge i in the written stream decodes to the side that describes it |
| `TopoReader.EdgeRecords` | server/templates/grid/hooks.py:1231 | one unframed record per edge |
| `TopoReader.EdgeRecordsDecode` | server/crms/grid.py:61-74 | all written edge records decode to the written sides |
| `TopoReader.ReadEdgeTopology` | server/crms/grid.py:151-165 | reading the file `_record_edge_topology` writes gives one side per edge, in cache order, each as the writer described it. The stream of no edges is the empty file, which the reader rejects |
| `TopoReader.Center` | server/crms/grid.py:37-43 | the `center` property as a definition: the midpoints `(a + b) / 2.0` of the x and y bounds, then the altitude; the float arithmetic stays symbolic as `Mid` |
| `TopoReader.Ne` | server/crms/grid.py:45-59 | the `ne` property as a definition; `TopoReader.NeLayout` states its layout |
| `TopoReader.SideLength` | server/crms/grid.py:76-78 | the `length` property as a definition: the x extent `max_x - min_x` for direction 1 and the y extent otherwise, kept symbolic as `Span` |
| `TopoReader.Ns` | server/crms/grid.py:80-110 | the `ns` property, which uses `center` and `length`, as a definition; `TopoReader.NsOfWrittenSide` states its layout |
| `TopoReader.NeLayout` | server/crms/grid.py:45-59 | the `ne` row is the index and the four counts, then each list at the offset the counts before it give, then the centre and the type: 5 + ids + 4 entries |
| `TopoReader.NsOfWrittenSide` | server/crms/grid.py:88-110 | the `ns` row has 11 entries; a horizontal side keeps direction 1 with the second cell at the bottom and the first at the top; a vertical side becomes direction 2 with the first cell left and the second right |
| `TopoReader.ExportNe` | server/crms/grid.py:144-148 | one line per element, in order, each the space-joined rendering of its `ne` row |
| `TopoReader.ExportNs` | server/crms/grid.py:180-184 | one line per side, in order, each the space-joined rendering of its `ns` row |
| `TopoReader.RowTokens` | server/crms/grid.py:148 | a written row splits back on whitespace into one token per entry when floats render as single tokens |
| `Text.IsSpace` | server/templates/grid/vector.py:137-143 | the whitespace of `line.strip()` and `re.split(r'\s+', ...)`, which is the set of Python's `str.isspace()`; `Text.Tokens` and `BlankIffNoTokens` state tokenising in its terms |
| `Text.JoinSpace` | server/templates/grid/vector.py:84 | `' '.join(parts)` as a definition; `Text.TokensOfJoin` and `JoinNotBlank` state its inverse and its blankness |
| `Text.IntText` | server/templates/grid/vector.py:60 | `str` of an integer as a definition: the decimal digits, behind a `-` when negative; `Text.IntTextToken` and `ParseIntText` state its properties |
| `Text.ParseInt` | server/templates/grid/vector.py:153 | `int(token)` as a definition: an optional `+` or `-`, then a non-empty run of decimal digits, else the ValueError, given here as None; `Text.ParseIntText` proves it inverts `IntText` |
| `Text.WordLength` | server/templates/grid/vector.py:143 | the leading run of non-space characters: within the line, all non-space, ended by a space or the end |
| `Text.Tokens` | server/templates/grid/vector.py:143 | splitting on whitespace and dropping empty parts gives only non-empty tokens without spaces |
| `Text.BlankIffNoTokens` | server/templates/grid/vector.py:137-143 | a line strips to nothing exactly when it splits into no tokens |
| `Text.WordLengthOfToken` | server/templates/grid/vector.py:143 | a token followed by a space or the end is read as one word |
| `Text.TokensOfJoin` | server/templates/grid/vector.py:84 | splitting a space-joined line of tokens gives back exactly those tokens |
| `Text.JoinNotBlank` | server/templates/grid/vector.py:84 | a space-joined line of tokens is blank exactly when it has no parts |
| `Text.DigitChar` | server/templates/grid/vector.py:60 | each decimal digit has its character |
| `Text.NatText` | server/templates/grid/vector.py:60 | `str` of a natural number is a non-empty run of digits |
| `Text.DigitsOfNatText` | server/templates/grid/vector.py:60 | the digits of `str(n)` have the value n |
| `Text.ParseNatText` | server/templates/grid/vector.py:153 | `int(str(n))` is n for a natural number |
| `Text.ParseNegText` | server/templates/grid/vector.py:153 | `int("-" + str(n))` is -n |
| `Text.ParseIntText` | server/templates/grid/vector.py:153 | `int(str(x))` is x for every integer |
| `Text.IntTextToken` | server/templates/grid/vector.py:60 | `str` of an integer is one token |
| `GridText.Column` | server/templates/grid/vector.py:187-199 | a list appended row by row holds each row's field, in order |
| `GridText.ColumnSnoc` | server/templates/grid/vector.py:187-199 | one more row appends its field to the column |
| `GridText.AllTokensConcat` | server/templates/grid/vector.py:58-84 | joining two lists of tokens gives a list of tokens |
| `GridText.LinesOk` | server/templates/grid/vector.py:58-84 | a writer's loop over rows 1..m succeeds exactly when every row can be formatted |
| `GridText.LinesLength` | server/templates/grid/vector.py:58-84 | a successful loop over rows 1..m writes m lines |
| `GridText.LinesErr` | server/templates/grid/vector.py:58-84 | a failing loop fails with the IndexError |
| `GridText.LinesAt` | server/templates/grid/vector.py:58-84 | line k of the file is the formatting of row k + 1 |
| `GridText.LinesSnoc` | server/templates/grid/vector.py:58-84 | one more formattable row appends its line |
| `GridText.LinesErrStays` | server/templates/grid/vector.py:58-84 | once a row raises, later rows do not change the outcome |
| `NeFile.NeDataSnoc` | server/templates/grid/vector.py:187-199 | reading one more data line appends its field to each of the thirteen lists |
| `NeFile.BuildIsl` | server/templates/grid/vector.py:169-173 | the list exists exactly when the n tokens from the start index all read as integers; it is then `max(10, n + 1)` slots with those integers at 1..n |
| `NeFile.NeRowOf` | server/templates/grid/vector.py:152-199 | one line of five or more tokens as a definition. It is the row of five integers, the four side lists and the centre floats, or None when a field cannot be read; `NeFile.ParseNeLine` and `NeRejectsLine` state its results |
| `NeFile.NeRows` | server/templates/grid/vector.py:131-206 | `get_ne`'s line loop as a definition. It skips lines of fewer than five tokens and fails at the first unreadable line with its one-based number; `NeFile.NeSkipsShortLines`, `NeSkipsBlankLines`, `NeRejectsLine`, `NeRowsErrStays` and `NeRowsSnoc` state it step by step |
| `NeFile.NeLoad` | server/templates/grid/vector.py:113-214 | `get_ne` as a definition: the placeholder row, then the rows of the loop, as thirteen lists; `NeFile.GetNe` and `NeRoundTrip` state its results |
| `NeFile.ParseNeLine` | server/templates/grid/vector.py:147-199 | one line of five tokens or more becomes its row, or the error the loop raises |
| `NeFile.GetNe` | server/templates/grid/vector.py:113-214 | the lists start with their placeholders. Lines of fewer than five tokens are skipped, every other line adds its row in order, and the first line that cannot be read fails the load with its one-based number |
| `NeFile.NeRowsErrStays` | server/templates/grid/vector.py:201-203 | once a prefix of the file fails, the whole file fails with the same line number |
| `NeFile.NeSkipsShortLines` | server/templates/grid/vector.py:147-149 | a line of fewer than five tokens leaves the load as it was |
| `NeFile.NeSkipsBlankLines` | server/templates/grid/vector.py:137-139 | a blank line leaves the load as it was |
| `NeFile.NeRejectsLine` | server/templates/grid/vector.py:152-166 | a line whose first five fields are not integers, or that is shorter than its counts demand, fails the load with its line number |
| `NeFile.SlotsLayout` | server/templates/grid/vector.py:169-173 | a rebuilt side list has `max(10, n + 1)` slots: 0 at index 0, the n tokens at 1..n, 0 after them |
| `NeFile.SlotTextsSnoc` | server/templates/grid/vector.py:69-76 | one more slot appends its text |
| `NeFile.NeTextOk` | server/templates/grid/vector.py:48-84 | `write_ne` fails with the IndexError exactly when some row 1.. cannot be read from the lists; otherwise it writes one line per row after the placeholder |
| `NeFile.AppendSlots` | server/templates/grid/vector.py:69-76 | the loop appends `str` of slots 1..n exactly when the list holds them, and fails otherwise |
| `NeFile.NeRowText` | server/templates/grid/vector.py:60-84 | the loop body gives the line of row i, or the IndexError |
| `NeFile.NeWriteRow` | server/templates/grid/vector.py:58-84 | one pass of the loop extends the lines of rows 1..i-1 to rows 1..i |
| `NeFile.NeTextStops` | server/templates/grid/vector.py:58-84 | a row that raises makes the whole write raise |
| `NeFile.WriteNe` | server/templates/grid/vector.py:48-84 | the lines written are rows 1.. each as the space-joined id, counts, side slots, centre and type, or the IndexError |
| `NeFile.SlotsOfCanonical` | server/templates/grid/vector.py:69-76 | a count within its list can always be written |
| `NeFile.NeRowAtCanonical` | server/templates/grid/vector.py:58-84 | a readable row of the lists has counts within its side lists |
| `NeFile.NePartsOfRow` | server/templates/grid/vector.py:60-82 | the parts written for index i are the parts of the row at index i |
| `NeFile.Resized` | server/templates/grid/vector.py:169-173 | a side list as `get_ne` rebuilds it: `max(10, n + 1)` slots, 0 at index 0, slots 1..n kept, 0 after them |
| `NeFile.SlotTextsTokens` | server/templates/grid/vector.py:69-76 | every written slot is one token |
| `NeFile.RowPartsTokens` | server/templates/grid/vector.py:60-82 | every written part of a row is one token |
| `NeFile.SlotsAt` | server/templates/grid/vector.py:169-178 | slots written after some prefix are rebuilt from the prefix's length as the resized list |
| `NeFile.IntsAt` | server/templates/grid/vector.py:172 | each written slot reads back as its integer at its position |
| `NeFile.IntAtSlot` | server/templates/grid/vector.py:172 | slot j + 1 is read back at the prefix's length + j |
| `NeFile.SlotsOfInts` | server/templates/grid/vector.py:169-173 | when its tokens are the list's integers, the rebuilt list is the resized list |
| `NeFile.RowSlots` | server/templates/grid/vector.py:175-178 | the four side lists of a written row are rebuilt from the offsets the counts give, and the row is 9 + the counts long |
| `NeFile.RowHeaderRead` | server/templates/grid/vector.py:152-166 | the header of a written row reads back as its id and counts, and the row has exactly the length the counts demand |
| `NeFile.RowTailRead` | server/templates/grid/vector.py:181-184 | the last four parts of a written row are the formatted centre and the type |
| `NeFile.RowRead` | server/templates/grid/vector.py:147-199 | `get_ne` reads the parts of a written row as the row with resized side lists and floats through their text |
| `NeFile.RowRoundTrip` | server/templates/grid/vector.py:143-199 | a line `write_ne` writes for a row is read back by `get_ne` as that row, side lists resized and floats through their text |
| `NeFile.WrittenLinesAt` | server/templates/grid/vector.py:84 | line k of the written rows is row k's space-joined parts |
| `NeFile.ReadBacksAt` | server/templates/grid/vector.py:147-199 | element k of the rows read back is row k read back |
| `NeFile.ReadWrittenLines` | server/templates/grid/vector.py:134-199 | every written line is a data line, read back row by row in order |
| `NeFile.NeRowsSnoc` | server/templates/grid/vector.py:134-199 | one more readable data line appends its row |
| `NeFile.NeRowsUpTo` | server/templates/grid/vector.py:58 | rows 1..m of the lists are m rows with counts within their side lists |
| `NeFile.NeRowsUpToAt` | server/templates/grid/vector.py:58 | element k of rows 1..m is the row at index k + 1 |
| `NeFile.NeLinesRows` | server/templates/grid/vector.py:58-84 | the lines of rows 1..m are the written lines of those rows |
| `NeFile.NeLineOfRow` | server/templates/grid/vector.py:60-84 | row i of readable lists is written as the line of its entries |
| `NeFile.WrittenLinesSnoc` | server/templates/grid/vector.py:84 | one more row appends its line |
| `NeFile.NeRowsAt` | server/templates/grid/vector.py:58 | rows 1.. of the lists, one per entry after the placeholder |
| `NeFile.NeRoundTrip` | server/templates/grid/vector.py:48-214 | reading what `write_ne` wrote from readable lists always succeeds: the lists come back with the placeholders at index 0 and, at every index i of at least 1, the same id, counts and slots 1..n, the other slots 0, and the floats as `float` reads their text |
| `NsFile.NsDataSnoc` | server/templates/grid/vector.py:241-258 | reading one more data line appends its field to each of the seven lists |
| `NsFile.NsRowOf` | server/templates/grid/vector.py:240-260 | one non-blank line as a definition. It is the row of a float id, five integers and five floats, or the edge-data or side-data error with the line's number; `NsFile.NsRowFields` and `NsRowErrors` state it |
| `NsFile.NsRows` | server/templates/grid/vector.py:228-264 | `get_ns`'s line loop as a definition. It skips blank lines and fails at the first unreadable line; `NsFile.NsSkipsBlankLines`, `NsRejectsLine`, `NsRowsErrStays` and `NsRowsSnoc` state it step by step |
| `NsFile.NsLoad` | server/templates/grid/vector.py:216-274 | `get_ns` as a definition: the placeholder row, then the rows of the loop, as seven lists; `NsFile.GetNs`, `NsLoadAligned` and `NsRoundTrip` state its results |
| `NsFile.GetNs` | server/templates/grid/vector.py:216-274 | the lists start with their placeholders. Blank lines are skipped, every other line adds its row in order, and the first line that cannot be read fails the load with its one-based number |
| `NsFile.NsRowsErrStays` | server/templates/grid/vector.py:249-260 | once a prefix of the file fails, the whole file fails with the same error |
| `NsFile.NsRowFields` | server/templates/grid/vector.py:240-258 | a line reads as a row exactly when it has at least eleven tokens: a float, five integers, then five floats. The row holds those values, the id truncated toward zero |
| `NsFile.NsRowErrors` | server/templates/grid/vector.py:249-260 | a failing line is the edge-data error exactly when one of its first six values is missing or unreadable, and the side-data error otherwise |
| `NsFile.NsSkipsBlankLines` | server/templates/grid/vector.py:232-234 | a blank line leaves the load as it was |
| `NsFile.NsRejectsLine` | server/templates/grid/vector.py:240-260 | a non-blank line that does not read as a row fails the load with its line's error; unlike NE, no line is skipped for being short |
| `NsFile.NsRowsIse` | server/templates/grid/vector.py:242-248 | every row read holds five `ise` entries |
| `NsFile.NsLoadAligned` | server/templates/grid/vector.py:216-271 | the seven lists of a successful load have the same length, at least one, and every `ise` entry has five elements |
| `NsFile.IntTexts` | server/templates/grid/vector.py:101-102 | `str` of every entry, in order |
| `NsFile.NsTextOk` | server/templates/grid/vector.py:86-111 | `write_ns` fails with the IndexError exactly when some row 1.. cannot be read from the lists; otherwise it writes one line per row after the placeholder |
| `NsFile.AppendInts` | server/templates/grid/vector.py:101-102 | the loop appends `str` of every `ise` entry |
| `NsFile.NsRowText` | server/templates/grid/vector.py:98-111 | the loop body gives the line of row i, or the IndexError |
| `NsFile.NsWriteRow` | server/templates/grid/vector.py:96-111 | one pass of the loop extends the lines of rows 1..i-1 to rows 1..i |
| `NsFile.NsTextStops` | server/templates/grid/vector.py:96-111 | a row that raises makes the whole write raise |
| `NsFile.WriteNs` | server/templates/grid/vector.py:86-111 | the lines written are rows 1.. each as the space-joined id, `ise` entries, formatted floats and type, or the IndexError |
| `NsFile.IntTextsFive` | server/templates/grid/vector.py:101-102 | five `ise` entries are written as their five texts |
| `NsFile.NsLineOfRow` | server/templates/grid/vector.py:98-111 | row i of readable lists is written as the line of its entries |
| `NsFile.IseRead` | server/templates/grid/vector.py:242-248 | the five written `ise` entries read back as themselves |
| `NsFile.NsRowRead` | server/templates/grid/vector.py:240-258 | `get_ns` reads the parts of a written row as the row with the id through `int(float(..))` and the floats through their text |
| `NsFile.NsRowRoundTrip` | server/templates/grid/vector.py:232-258 | a line `write_ns` writes for a row is read back by `get_ns` as that row |
| `NsFile.NsReadBacks` | server/templates/grid/vector.py:240-258 | one row read back per row written |
| `NsFile.NsReadBacksAt` | server/templates/grid/vector.py:240-258 | element k of the rows read back is row k read back |
| `NsFile.NsRowsSnoc` | server/templates/grid/vector.py:231-258 | one more readable line appends its row |
| `NsFile.ReadNsWrittenLines` | server/templates/grid/vector.py:231-258 | every written line is a data line, read back row by row in order |
| `NsFile.NsRowsUpTo` | server/templates/grid/vector.py:96 | rows 1..m of the lists are m rows with five `ise` entries each |
| `NsFile.NsRowsUpToAt` | server/templates/grid/vector.py:96 | element k of rows 1..m is the row at index k + 1 |
| `NsFile.NsWrittenLinesSnoc` | server/templates/grid/vector.py:111 | one more row appends its line |
| `NsFile.NsLinesRows` | server/templates/grid/vector.py:96-111 | the lines of rows 1..m are the written lines of those rows |
| `NsFile.NsRowsAt` | server/templates/grid/vector.py:96 | rows 1.. of the lists, one per entry after the placeholder |
| `NsFile.NsRoundTrip` | server/templates/grid/vector.py:86-274 | reading what `write_ns` wrote from readable lists always succeeds: the placeholders come back at index 0 and every row i of at least 1 comes back with the same `ise` entries, the id through `str` and `int(float(..))` and the floats through their text |
| `NsFile.NsRoundTripIse` | server/templates/grid/vector.py:86-274 | after the round trip the lists have their old length and every `ise` entry is unchanged |
| `GeoJson.EnsureFeatureCollection` | server/crms/vector.py:471-509 | every result is a dict whose type is FeatureCollection |
| `GeoJson.CollectionUnchanged` | server/crms/vector.py:485-487 | a FeatureCollection is returned as it is |
| `GeoJson.FeatureWrapped` | server/crms/vector.py:489-494 | a Feature becomes the collection whose only feature it is |
| `GeoJson.GeometryWrapped` | server/crms/vector.py:496-506 | each of the seven geometry types becomes the one Feature, with that geometry and empty properties, of a collection |
| `GeoJson.EnsureRejects` | server/crms/vector.py:481-509 | the ValueError is raised exactly for a value that is not a dict, or a dict whose type is none of the nine GeoJSON types |
| `GeoJson.EnsureIdempotent` | server/crms/vector.py:471-509 | applying it to its own result changes nothing |
| `GeoJson.FindFrom` | server/crms/vector.py:430 | a found occurrence lies within the text, at or after the start |
| `GeoJson.FindFromSpec` | server/crms/vector.py:430 | the occurrence found has none before it, and when none is found there is none at all |
| `GeoJson.ContainsIff` | server/crms/vector.py:430 | `t in s` holds exactly when t occurs somewhere in s |
| `GeoJson.SplitLastSuffix` | server/crms/vector.py:431 | `s.split(sep)[-1]` is a suffix of s without the separator in it |
| `GeoJson.SplitLastAfterSep` | server/crms/vector.py:431 | when s holds the separator, one ends right before the last piece |
| `GeoJson.DigitRun` | server/crms/vector.py:440 | the longest run of ASCII digits from a position |
| `GeoJson.CodeAt` | server/crms/vector.py:440 | a match of `EPSG:?(\d+)` at a position has a non-empty all-digit group |
| `GeoJson.SearchFrom` | server/crms/vector.py:440 | a match found by the search has a non-empty all-digit group |
| `GeoJson.SearchNone` | server/crms/vector.py:440-441 | the search fails exactly when no position matches |
| `GeoJson.SearchLeftmost` | server/crms/vector.py:440-442 | the group found is that of the leftmost matching position |
| `GeoJson.SearchNeedsEpsg` | server/crms/vector.py:440 | without an upper-case "EPSG" in the text there is no match |
| `GeoJson.NameStep` | server/crms/vector.py:428-433 | the `name` branch as a definition: the text after the last "EPSG:" when the name holds one, else fall through; `GeoJson.NameCrsStep`, `EpsgFromName` and `NameWithoutEpsg` state its results |
| `GeoJson.LinkStep` | server/crms/vector.py:436-444 | the `link` branch as a definition: the group of the leftmost `EPSG:?(\d+)` match when the href mentions epsg.io or "EPSG:", else fall through; `GeoJson.LinkCrsStep`, `EpsgFromLink` and `LinkWithoutEpsg` state its results |
| `GeoJson.CrsStep` | server/crms/vector.py:425-444 | the crs block as a definition: the `name` branch for a `name` crs, the `link` branch for a `link` crs, else fall through; `GeoJson.DetectFound` states its result |
| `GeoJson.DetectEpsg` | server/crms/vector.py:413-470 | `_detect_geojson_epsg` as a definition. It gives the crs block's code when that finds one, and "4326" when the block raises. Otherwise it gives a truthy WKT member's non-empty authority code, else "4326"; `GeoJson.DetectFound`, `EpsgDefault` and `EpsgFromWkt` state its results, and the 4326 default holds for every input that is not a dict |
| `GeoJson.NameCrsStep` | server/crms/vector.py:428-433 | a `name` crs returns the text after its last "EPSG:" when it holds one, and otherwise falls through |
| `GeoJson.LinkCrsStep` | server/crms/vector.py:436-444 | a `link` crs mentioning epsg.io or "EPSG:" returns the group of the match when there is one; otherwise it falls through |
| `GeoJson.DetectFound` | server/crms/vector.py:425-444 | a code found in the crs member is the result |
| `GeoJson.EpsgFromName` | server/crms/vector.py:428-433 | a `name` crs holding "EPSG:" gives the text after the last "EPSG:", which holds none itself |
| `GeoJson.NameWithoutEpsg` | server/crms/vector.py:428-430 | a `name` crs without "EPSG:" falls through to the WKT check |
| `GeoJson.EpsgFromLink` | server/crms/vector.py:436-444 | a `link` crs with a match gives the digits of the leftmost `EPSG:?(\d+)` match |
| `GeoJson.LinkWithoutEpsg` | server/crms/vector.py:436-464 | a `link` crs without an upper-case "EPSG" falls through, and without a WKT member the result is 4326 |
| `GeoJson.EpsgDefault` | server/crms/vector.py:462-469 | with neither a crs nor a WKT member, or for a value that is not a dict, the result is 4326 |
| `GeoJson.EpsgFromWkt` | server/crms/vector.py:446-464 | when the crs block falls through, a truthy WKT member's non-empty authority code is the result, else 4326 |

## Left out

Persistence, I/O and concurrency:

- The patch's parquet file (`_load_from_file`, `save`, `terminate`) is left out because it is file I/O. The lazy `cache` property and the `_load_patch` calls are not modelled either (see "Notes on the source"): the queries read the table held in the `cells` field.
- `HydroElements.save` and `HydroSides.save` are left out because they are file output that packs every row entry as a double.
- A file is read as its sequence of lines and written as the lines it would contain. Opening, encoding and the `utf-8-sig` byte-order mark are outside the model, and so is the partial file that `write_ne` or `write_ns` leave on disk before an IndexError.
- Logging is left out.
- The multiprocessing pool of `_record_cell_topology` and `_record_edge_topology` is modelled as its ordered result: `pool.map` returns the batch outputs in batch order, so the model runs the batches one after the other. When several batches fail, `pool.map` raises the exception of the batch that fails first in time. The model raises that of the first failing batch in batch order, whose exception type can differ, since an edge record can fail with struct.error, UnboundLocalError or ZeroDivisionError.
- Records.RecordCellTopology: for an empty cache, `mp.Pool(processes=0)` raises a ValueError. The model returns the empty stream. `Records.RecordEdgeTopology` does the same.

Raster sampling and floating point:

- Raster sampling (`_get_raster_value` with rasterio and CRS reprojection) is a library call. Each sampler is a parameter giving an optional value, with the defaults -9999.0 and 0 when it gives none.
- Float arithmetic is not modelled. Cell and edge bounds (`_get_cell_coordinates`, the coordinate computation of `_generate_edge_record`) are a `place` parameter whose values are the eight packed bytes of each double. The same goes for `get_cell_bboxes` and `_get_coordinates` of the patch. The `center` and `length` properties of the reader are kept as symbolic values, `Mid(a, b)` and `Span(hi, lo)`.
- Python's `float()` parsing and the `:.14g` and `str` formatting of floats are the parameters of `FloatText`. The round-trip lemmas assume, through `FloatsRead`, that formatted floats are single tokens that `float()` reads. `inf`, `nan` and the OverflowError of `int(float(..))` on them are not modelled.
- The patch geometry derives its rules from natural-number ratios rather than by float division and `ceil`.
- The meta-grid column and row offsets of a patch (`int(f * cols + 0.5)`) are the integer-valued parameters `colOffset` and `rowOffset` of `Assembly.UpdateCellsByPatch`, functions of the meta level's column and row counts. They may be negative.
- Fractions are compared by exact cross-multiplication where the source compares the float quotients.

Text:

- Tokenising uses the whitespace set of Python's `str.isspace()`. Unicode digits and the underscores `int()` accepts are not modelled.
- `\d` in the EPSG regex is ASCII digits only.
- OSR's reading of a WKT text is the `authority` parameter, which gives None when OSR raises or finds no code.

Parts of the grid pipeline:

- Risk refinement (`_find_risk_cells`, `_check_risk_along_edge`, `_refine_risk_cells`) is left out. `grading_threshold` is hard-coded to -1, so the shipped assembly never calls it.
- `_get_bounds` and the assembly's JSON and file handling are left out because they are I/O.
- The copy of the NE/NS code in server/templates/grid/hooks.py (lines 1460-1686) is the same code and is modelled once.

Assumptions stated as preconditions:

- PatchTable.Patch.Merge: requires every input level to be at least 1. For level 0, Python's negative index reaches the last row of `level_info`, and no caller sends the virtual root.
- PatchTable.Patch.constructor: requires positive rules, fewer than 254 ratios, and at most 2^32 cells per level, so that keys fit the uint8 levels and uint32 ids of the packed key.
- PatchTable.Patch.Subdivide: requires levels below 2^8 and ids below 2^32, as the packed key's arrays hold them. `Delete` and `Restore` have the same requires for the same reason.
- PatchTable.Patch.Merge: also requires levels below 2^8 and ids below 2^32. `merge_cells` builds no arrays. Its scalar `_encode_index` computes `np.uint64(level) << 32 | np.uint64(global_id)`, which equals the model's key only for ids below 2^32. A larger id, which lies outside every level of the grid, can make the source's key of a parent or child collide with another cell's key. The model does not capture that collision.
- The patch rows are a map from keys, which cannot hold two rows for the same key. The source's table can, when a subdivided parent is listed twice and its children are new.
- Fractions.SimplifyFraction: requires n > 0 or m > 0. Python raises ZeroDivisionError for `0, 0`, which no caller passes.
- CellEdges.CalcCellEdges: requires every cell inside its level with level sizes below 2^32, and the fraction table still empty, as the assembly calls it.
- PatchTable.Patch.ActivatedCellInfos: returns a set of cells. The source returns two parallel lists, levels and ids, in table-row order. The one modelled caller, `_update_cells_by_patch`, only adds their keys to a set. The row order is lost, and `PatchTable.Patch.DeletedCellInfos` is modelled the same way.
- PatchTable.Patch.Subdivide: takes one sequence of cells, where the source takes `levels` and `global_ids` as two lists. Lists of different lengths are not modelled. `merge_cells` would truncate them through `zip`. The numpy encoders of `subdivide_cells`, `delete_cells` and `restore_cells` would fail on them. The early return `if not levels or not global_ids` would fire when only one list is empty. `Merge`, `Delete` and `Restore` are modelled the same way.
- Assembly.UpdateCellsByPatch: on an error it returns only the error. The keys the source added to the caller's set before raising are not part of the result, because the exception ends the assembly.
- CellEdges.SetToList: the order of `list(set)` is not specified. The model allows any order and proves the results for every order.

## Notes on the source

- The comment at server/crms/grid.py:64 says the side record is 70 bytes. The format `!QBddddQQdi` packs 69 bytes, and both the writer and the reader use that format. The model uses 69.
- `cache` is a getter-only property of `Patch` (server/crms/patch/patch.py:147-151). Neither patch.py nor server/icrms/ipatch.py defines a setter. Yet `self.cache = ...` is assigned at patch.py:99, :128, :327 and :330, while `_pd_cache` keeps the empty frame from :80. As the text reads, the first access to `cache` runs `_load_patch`. That reaches `_initialize_default` or `_load_from_file`, whose assignment to `cache` raises AttributeError. The ipatch.py decorator might change this, but its code is not part of this model. The model assumes that a setter writes `_pd_cache`, so each assignment replaces the table.
- New children of a subdivided cell are stored with `activate` false, although the method's docstring says they are activated. The model keeps the code's behaviour.
- Merge counts input cells with multiplicity and leaves the parent's `deleted` flag as it was. The model keeps both.
