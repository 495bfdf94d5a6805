/** The 9-byte cell key of the meta-grid assembly in
    server/templates/grid/hooks.py: struct format '!BQ', a one-byte level
    followed by an eight-byte global id, both big-endian. Unlike the patch
    store's packed 64-bit key, the byte order of these keys is the
    (level, global id) order, which `sorted` relies on. */
module CellKey {
  import opened Bytes
  import opened Geometry

  /** A cell whose fields fit the '!BQ' format. */
  predicate KeyFits(c: CellId)
  {
    c.level < U8_LIMIT && c.gid < U64_LIMIT
  }

  /** `_encode_cell_key` */
  function EncodeCellKey(c: CellId): (b: seq<Byte>)
    requires KeyFits(c)
    ensures |b| == 9
  {
    PowValues();
    BE(c.level, 1) + BE(c.gid, 8)
  }

  /** `_decode_cell_key` */
  function DecodeCellKey(b: seq<Byte>): (c: CellId)
    requires |b| == 9
    ensures KeyFits(c)
  {
    PowValues();
    CellId(FromBE(b[..1]), FromBE(b[1..]))
  }

  lemma DecodeOfEncode(c: CellId)
    requires KeyFits(c)
    ensures DecodeCellKey(EncodeCellKey(c)) == c
  {
    PowValues();
    var b := EncodeCellKey(c);
    assert b[..1] == BE(c.level, 1) && b[1..] == BE(c.gid, 8);
    FromBEOfBE(c.level, 1);
    FromBEOfBE(c.gid, 8);
  }

  lemma EncodeOfDecode(b: seq<Byte>)
    requires |b| == 9
    ensures EncodeCellKey(DecodeCellKey(b)) == b
  {
    PowValues();
    BEOfFromBE(b[..1]);
    BEOfFromBE(b[1..]);
    assert b == b[..1] + b[1..];
  }

  lemma EncodeInjective(a: CellId, b: CellId)
    requires KeyFits(a) && KeyFits(b)
    ensures EncodeCellKey(a) == EncodeCellKey(b) <==> a == b
  {
    DecodeOfEncode(a);
    DecodeOfEncode(b);
  }

  /** Lexicographic order on (level, global id). */
  predicate KeyLess(a: CellId, b: CellId)
  {
    a.level < b.level || (a.level == b.level && a.gid < b.gid)
  }

  /** Python compares the encoded keys bytewise; that is (level, gid) order. */
  lemma EncodingOrder(a: CellId, b: CellId)
    requires KeyFits(a) && KeyFits(b)
    ensures LexLess(EncodeCellKey(a), EncodeCellKey(b)) <==> KeyLess(a, b)
  {
    PowValues();
    LexLessAppend(BE(a.level, 1), BE(b.level, 1), BE(a.gid, 8), BE(b.gid, 8));
    BEOrder(a.level, b.level, 1);
    BEOrder(a.gid, b.gid, 8);
    if BE(a.level, 1) == BE(b.level, 1) {
      BEInjective(a.level, b.level, 1);
    }
  }

  // ---------------------------------------------------------------------
  // The sorted, concatenated key set handed to GridCache

  predicate StrictlySorted(s: seq<CellId>)
  {
    forall i, j :: 0 <= i < j < |s| ==> KeyLess(s[i], s[j])
  }

  lemma {:induction false} MinimumExists(s: set<CellId>)
    requires s != {}
    ensures exists m :: m in s && forall x :: x in s ==> !KeyLess(x, m)
  {
    var y :| y in s;
    if s == {y} {
      assert forall x :: x in s ==> x == y;
    } else {
      MinimumExists(s - {y});
      var m :| m in s - {y} && forall x :: x in s - {y} ==> !KeyLess(x, m);
      if KeyLess(y, m) {
        forall x | x in s ensures !KeyLess(x, y) {
          if x != y {
            assert !KeyLess(x, m);
          }
        }
      } else {
        assert forall x :: x in s ==> !KeyLess(x, m);
      }
    }
  }

  lemma MinimumFirst(s: set<CellId>, m: CellId, rest: seq<CellId>)
    requires m in s && forall x :: x in s ==> !KeyLess(x, m)
    requires StrictlySorted(rest) && forall c :: c in rest <==> c in s - {m}
    ensures StrictlySorted([m] + rest)
  {
    forall x | x in rest ensures KeyLess(m, x) {
      assert x in s && x != m;
    }
    var r := [m] + rest;
    forall i, j | 0 <= i < j < |r| ensures KeyLess(r[i], r[j]) {
      if i == 0 {
        assert r[j] == rest[j - 1] && rest[j - 1] in rest;
      } else {
        assert r[i] == rest[i - 1] && r[j] == rest[j - 1];
      }
    }
  }

  /** `sorted(activated_cell_keys)`: the keys in increasing byte order, which
      by EncodingOrder is increasing (level, gid) order. */
  ghost function SortedKeys(s: set<CellId>): (r: seq<CellId>)
    ensures forall c :: c in r <==> c in s
    ensures |r| == |s|
    ensures StrictlySorted(r)
    decreases |s|
  {
    if s == {} then []
    else
      MinimumExists(s);
      var m :| m in s && forall x :: x in s ==> !KeyLess(x, m);
      var rest := SortedKeys(s - {m});
      MinimumFirst(s, m, rest);
      [m] + rest
  }

  /** `b''.join(keys)` */
  function Join(ks: seq<CellId>): (data: seq<Byte>)
    requires forall c :: c in ks ==> KeyFits(c)
    ensures |data| == 9 * |ks|
  {
    if ks == [] then []
    else Join(ks[..|ks| - 1]) + EncodeCellKey(ks[|ks| - 1])
  }

  /** `GridCache._decode_at_index`: the i-th nine-byte chunk. */
  function DecodeAt(data: seq<Byte>, i: nat): CellId
    requires 9 * i + 9 <= |data|
  {
    DecodeCellKey(data[9 * i .. 9 * i + 9])
  }

  /** `GridCache.array`: every chunk of the data, decoded. */
  function CacheCells(data: seq<Byte>): (cs: seq<CellId>)
    ensures |cs| == |data| / 9
  {
    seq(|data| / 9, i requires 0 <= i < |data| / 9 => DecodeAt(data, i))
  }

  lemma {:induction false} JoinChunks(ks: seq<CellId>, i: nat)
    requires forall c :: c in ks ==> KeyFits(c)
    requires i < |ks|
    ensures Join(ks)[9 * i .. 9 * i + 9] == EncodeCellKey(ks[i])
  {
    var init := ks[..|ks| - 1];
    assert forall c :: c in init ==> c in ks;
    if i < |ks| - 1 {
      JoinChunks(init, i);
      assert Join(ks)[9 * i .. 9 * i + 9] == Join(init)[9 * i .. 9 * i + 9];
    } else {
      var a, b := Join(init), EncodeCellKey(ks[|ks| - 1]);
      assert |a| == 9 * i && Join(ks) == a + b;
      assert (a + b)[|a| .. |a| + |b|] == b;
    }
  }

  /** Decoding the concatenated keys gives them back in order. */
  lemma DecodeJoin(ks: seq<CellId>)
    requires forall c :: c in ks ==> KeyFits(c)
    ensures CacheCells(Join(ks)) == ks
  {
    var data := Join(ks);
    forall i | 0 <= i < |ks| ensures CacheCells(data)[i] == ks[i] {
      JoinChunks(ks, i);
      DecodeOfEncode(ks[i]);
    }
  }

  /** `{index: i for i, index in enumerate(array)}`: a later position
      overwrites an earlier one. */
  function IndexMap(s: seq<CellId>): (m: map<CellId, nat>)
    ensures forall c :: c in m <==> c in s
  {
    if s == [] then map[]
    else IndexMap(s[..|s| - 1])[s[|s| - 1] := |s| - 1]
  }

  /** Every cell maps to its last position. */
  lemma {:induction false} IndexMapLast(s: seq<CellId>, c: CellId)
    requires c in s
    ensures IndexMap(s)[c] < |s| && s[IndexMap(s)[c]] == c
    ensures forall j :: IndexMap(s)[c] < j < |s| ==> s[j] != c
  {
    var init := s[..|s| - 1];
    if s[|s| - 1] != c {
      assert c in init;
      IndexMapLast(init, c);
    }
  }

  /** Without repeats the map inverts the array: `map[array[i]] == i`. */
  lemma IndexMapInverts(s: seq<CellId>, i: nat)
    requires StrictlySorted(s) && i < |s|
    ensures IndexMap(s)[s[i]] == i
  {
    assert s[i] in s;
    IndexMapLast(s, s[i]);
  }
}
