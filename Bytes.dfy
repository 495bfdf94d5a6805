/** Big-endian fixed-width integers, as Python's struct module packs them
    with the '!' (network order) prefix, and the bytewise order in which
    Python compares `bytes` objects. */
module Bytes {

  type Byte = x: int | 0 <= x < 256

  /** 256^n */
  function Pow256(n: nat): (r: nat)
    ensures r > 0
  {
    if n == 0 then 1 else 256 * Pow256(n - 1)
  }

  const U8_LIMIT: nat := 0x100
  const U32_LIMIT: nat := 0x1_0000_0000
  const U64_LIMIT: nat := 0x1_0000_0000_0000_0000

  lemma PowValues()
    ensures Pow256(1) == U8_LIMIT && Pow256(4) == U32_LIMIT && Pow256(8) == U64_LIMIT
  {
    assert Pow256(2) == 65536 by { assert Pow256(1) == 256; }
    assert Pow256(4) == 65536 * 65536 by { assert Pow256(3) == 256 * 65536; }
    assert Pow256(8) == U64_LIMIT by {
      assert Pow256(5) == 256 * U32_LIMIT;
      assert Pow256(6) == 65536 * U32_LIMIT;
      assert Pow256(7) == 256 * 65536 * U32_LIMIT;
    }
  }

  /** `x` as `n` big-endian bytes (struct formats 'B', 'I', 'Q' for n = 1, 4, 8). */
  function BE(x: nat, n: nat): (r: seq<Byte>)
    requires x < Pow256(n)
    ensures |r| == n
  {
    if n == 0 then []
    else BE(x / 256, n - 1) + [(x % 256) as Byte]
  }

  /** The unsigned integer that the big-endian bytes `s` denote. */
  function FromBE(s: seq<Byte>): (r: nat)
    ensures r < Pow256(|s|)
  {
    if s == [] then 0
    else FromBE(s[..|s| - 1]) * 256 + s[|s| - 1]
  }

  lemma {:induction false} FromBEOfBE(x: nat, n: nat)
    requires x < Pow256(n)
    ensures FromBE(BE(x, n)) == x
  {
    if n > 0 {
      var s := BE(x, n);
      assert s[..n - 1] == BE(x / 256, n - 1);
      FromBEOfBE(x / 256, n - 1);
    }
  }

  lemma {:induction false} BEOfFromBE(s: seq<Byte>)
    ensures BE(FromBE(s), |s|) == s
  {
    if s != [] {
      var init := s[..|s| - 1];
      BEOfFromBE(init);
      assert s == init + [s[|s| - 1]];
    }
  }

  /** Distinct values have distinct encodings. */
  lemma BEInjective(x: nat, y: nat, n: nat)
    requires x < Pow256(n) && y < Pow256(n)
    requires BE(x, n) == BE(y, n)
    ensures x == y
  {
    FromBEOfBE(x, n);
    FromBEOfBE(y, n);
  }

  /** Python's ordering of `bytes` values: lexicographic, a proper prefix first. */
  predicate LexLess(a: seq<Byte>, b: seq<Byte>)
  {
    if a == [] then b != []
    else if b == [] then false
    else a[0] < b[0] || (a[0] == b[0] && LexLess(a[1..], b[1..]))
  }

  /** Comparing two concatenations whose first parts have equal length. */
  lemma {:induction false} LexLessAppend(a: seq<Byte>, b: seq<Byte>, c: seq<Byte>, d: seq<Byte>)
    requires |a| == |b|
    ensures LexLess(a + c, b + d) <==> LexLess(a, b) || (a == b && LexLess(c, d))
  {
    if a != [] {
      assert (a + c)[0] == a[0] && (b + d)[0] == b[0];
      assert (a + c)[1..] == a[1..] + c && (b + d)[1..] == b[1..] + d;
      LexLessAppend(a[1..], b[1..], c, d);
      if a[0] == b[0] && a[1..] == b[1..] {
        assert a == [a[0]] + a[1..] && b == [b[0]] + b[1..];
      }
    } else {
      assert a + c == c && b + d == d;
    }
  }

  /** Equal-width big-endian encoding preserves order. */
  lemma {:induction false} BEOrder(x: nat, y: nat, n: nat)
    requires x < Pow256(n) && y < Pow256(n)
    ensures LexLess(BE(x, n), BE(y, n)) <==> x < y
  {
    if n > 0 {
      BEOrder(x / 256, y / 256, n - 1);
      LexLessAppend(BE(x / 256, n - 1), BE(y / 256, n - 1), [(x % 256) as Byte], [(y % 256) as Byte]);
      if BE(x / 256, n - 1) == BE(y / 256, n - 1) {
        BEInjective(x / 256, y / 256, n - 1);
      }
    }
  }

  /** Two's complement in 4 bytes (struct format 'i'). */
  function I32BE(x: int): (r: seq<Byte>)
    requires -0x8000_0000 <= x < 0x8000_0000
    ensures |r| == 4
  {
    PowValues();
    if x >= 0 then BE(x, 4) else BE(x + U32_LIMIT, 4)
  }

  function FromI32BE(s: seq<Byte>): (r: int)
    requires |s| == 4
    ensures -0x8000_0000 <= r < 0x8000_0000
  {
    PowValues();
    var u := FromBE(s);
    if u < 0x8000_0000 then u else u - U32_LIMIT
  }

  lemma I32RoundTrip(x: int)
    requires -0x8000_0000 <= x < 0x8000_0000
    ensures FromI32BE(I32BE(x)) == x
  {
    PowValues();
    if x >= 0 { FromBEOfBE(x, 4); } else { FromBEOfBE(x + U32_LIMIT, 4); }
  }
}
