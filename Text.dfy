/** The Python text primitives the NE/NS files are built from: `str` of an
    integer, `int` of a token, whitespace tokenising (`re.split(r'\s+',
    line.strip())` keeping the non-empty parts) and `' '.join`. */
module Text {
  import opened Wrappers

  /** The characters `\s` matches and `strip()` removes: those for which
      Python's `str.isspace()` holds, that is tab to carriage return, the
      separators 0x1c-0x1f, the space, and the Unicode spaces and line and
      paragraph separators. */
  predicate IsSpace(c: char)
  {
    var n := c as int;
    || 9 <= n <= 13 || 28 <= n <= 32
    || n == 0x85 || n == 0xa0 || n == 0x1680 || 0x2000 <= n <= 0x200a
    || n == 0x2028 || n == 0x2029 || n == 0x202f || n == 0x205f || n == 0x3000
  }

  /** A non-empty run of non-space characters. */
  predicate IsToken(t: string)
  {
    |t| > 0 && forall i :: 0 <= i < |t| ==> !IsSpace(t[i])
  }

  predicate IsBlank(s: string)
  {
    forall i :: 0 <= i < |s| ==> IsSpace(s[i])
  }

  /** The length of the leading run of non-space characters. */
  function WordLength(s: string): (n: nat)
    ensures n <= |s|
    ensures forall i :: 0 <= i < n ==> !IsSpace(s[i])
    ensures n < |s| ==> IsSpace(s[n])
  {
    if s == [] || IsSpace(s[0]) then 0 else 1 + WordLength(s[1..])
  }

  /** The maximal runs of non-space characters, in order. */
  function Tokens(s: string): (ts: seq<string>)
    ensures forall i :: 0 <= i < |ts| ==> IsToken(ts[i])
    decreases |s|
  {
    if s == [] then []
    else if IsSpace(s[0]) then Tokens(s[1..])
    else
      var n := WordLength(s);
      [s[..n]] + Tokens(s[n..])
  }

  /** A line that strips to nothing is exactly a line without tokens. */
  lemma {:induction false} BlankIffNoTokens(s: string)
    ensures IsBlank(s) <==> Tokens(s) == []
    decreases |s|
  {
    if s != [] && IsSpace(s[0]) {
      BlankIffNoTokens(s[1..]);
      assert IsBlank(s) <==> IsBlank(s[1..]) by {
        if IsBlank(s[1..]) {
          forall i | 0 <= i < |s| ensures IsSpace(s[i]) {
            if i > 0 { assert s[i] == s[1..][i - 1]; }
          }
        }
      }
    }
  }

  /** `' '.join(ts)` */
  function JoinSpace(ts: seq<string>): string
  {
    if ts == [] then ""
    else if |ts| == 1 then ts[0]
    else ts[0] + " " + JoinSpace(ts[1..])
  }

  lemma WordLengthOfToken(t: string, rest: string)
    requires IsToken(t) && (rest == [] || IsSpace(rest[0]))
    ensures WordLength(t + rest) == |t|
    decreases |t|
  {
    if |t| > 1 {
      assert (t + rest)[1..] == t[1..] + rest;
      WordLengthOfToken(t[1..], rest);
    } else {
      assert (t + rest)[1..] == rest;
    }
  }

  /** Tokenising a space-joined line gives back its parts. */
  lemma {:induction false} TokensOfJoin(ts: seq<string>)
    requires forall i :: 0 <= i < |ts| ==> IsToken(ts[i])
    ensures Tokens(JoinSpace(ts)) == ts
  {
    if |ts| == 1 {
      var t := ts[0];
      WordLengthOfToken(t, "");
      assert t + "" == t;
      assert t[|t|..] == [];
    } else if |ts| > 1 {
      var t, rest := ts[0], JoinSpace(ts[1..]);
      var s := t + " " + rest;
      assert s == t + (" " + rest);
      WordLengthOfToken(t, " " + rest);
      assert s[..|t|] == t;
      assert s[|t|..] == " " + rest;
      assert (" " + rest)[1..] == rest;
      TokensOfJoin(ts[1..]);
      assert ts == [t] + ts[1..];
    }
  }

  /** A space-joined line of tokens is itself blank exactly when it has no parts. */
  lemma JoinNotBlank(ts: seq<string>)
    requires forall i :: 0 <= i < |ts| ==> IsToken(ts[i])
    ensures IsBlank(JoinSpace(ts)) <==> ts == []
  {
    TokensOfJoin(ts);
    BlankIffNoTokens(JoinSpace(ts));
  }

  // ---------------------------------------------------------------------
  // `str(n)` and `int(token)`

  predicate IsDigit(c: char)
  {
    '0' <= c <= '9'
  }

  predicate AllDigits(s: string)
  {
    forall i :: 0 <= i < |s| ==> IsDigit(s[i])
  }

  function DigitChar(d: nat): (c: char)
    requires d < 10
    ensures IsDigit(c) && c as int - '0' as int == d
  {
    ('0' as int + d) as char
  }

  /** Decimal digits of a natural number, without leading zeros. */
  function NatText(n: nat): (s: string)
    ensures |s| > 0 && AllDigits(s)
  {
    if n < 10 then [DigitChar(n)] else NatText(n / 10) + [DigitChar(n % 10)]
  }

  /** `str(x)` for an integer x. */
  function IntText(x: int): string
  {
    if x < 0 then "-" + NatText(-x) else NatText(x)
  }

  function DigitsValue(s: string): nat
    requires AllDigits(s)
  {
    if s == [] then 0 else DigitsValue(s[..|s| - 1]) * 10 + (s[|s| - 1] as int - '0' as int)
  }

  /** `int(token)`: an optional sign followed by one or more decimal digits;
      anything else is a ValueError. */
  function ParseInt(t: string): Option<int>
  {
    if |t| > 0 && (t[0] == '-' || t[0] == '+') then
      var body := t[1..];
      if |body| > 0 && AllDigits(body) then
        var v: int := DigitsValue(body);
        Some(if t[0] == '-' then -v else v)
      else None
    else if |t| > 0 && AllDigits(t) then Some(DigitsValue(t))
    else None
  }

  lemma {:induction false} DigitsOfNatText(n: nat)
    ensures DigitsValue(NatText(n)) == n
  {
    if n >= 10 {
      var s := NatText(n);
      assert s[..|s| - 1] == NatText(n / 10);
      DigitsOfNatText(n / 10);
    }
  }

  lemma ParseNatText(n: nat)
    ensures ParseInt(NatText(n)) == Some(n)
  {
    var s := NatText(n);
    assert IsDigit(s[0]);
    DigitsOfNatText(n);
  }

  lemma ParseNegText(n: nat)
    requires n > 0
    ensures ParseInt("-" + NatText(n)) == Some(0 - n)
  {
    var s := "-" + NatText(n);
    assert s[0] == '-' && s[1..] == NatText(n);
    DigitsOfNatText(n);
  }

  /** `int(str(x)) == x` */
  lemma ParseIntText(x: int)
    ensures ParseInt(IntText(x)) == Some(x)
  {
    if x < 0 { ParseNegText(-x); } else { ParseNatText(x); }
  }

  lemma IntTextToken(x: int)
    ensures IsToken(IntText(x))
  {
    var s := IntText(x);
    if x < 0 {
      forall i | 0 <= i < |s| ensures !IsSpace(s[i]) {
        if i > 0 { assert s[i] == NatText(-x)[i - 1]; }
      }
    }
  }
}
