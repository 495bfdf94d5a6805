/** Exact rational cell boundaries of server/templates/grid/hooks.py:
    `_simplify_fraction` reduces u / width to lowest terms with a Euclid loop
    and `_get_fractional_coords` gives a cell's four sides as such fractions. */
module Fractions {
  import opened Geometry

  /** `[numerator, denominator]` */
  datatype Frac = Frac(num: nat, den: nat)

  /** `(x_min_frac, x_max_frac, y_min_frac, y_max_frac)` */
  datatype FractCoords = FractCoords(xMin: Frac, xMax: Frac, yMin: Frac, yMax: Frac)

  /** Euclid's recursion, the reference for the loop of `_simplify_fraction`. */
  function Gcd(a: nat, b: nat): nat
    decreases b
  {
    if b == 0 then a else Gcd(b, a % b)
  }

  predicate Divides(d: nat, x: nat)
  {
    d > 0 && x % d == 0
  }

  // ---------------------------------------------------------------------
  // Divisibility facts

  lemma DividesMultiple(d: nat, k: nat)
    requires d > 0
    ensures Divides(d, d * k)
  {
    assert d * k == k * d;
  }

  lemma DividesShape(d: nat, x: nat)
    requires Divides(d, x)
    ensures x == d * (x / d)
  {
  }

  /** d | b and d | r give d | q * b + r. */
  lemma DividesCombination(d: nat, q: nat, b: nat, r: nat)
    requires Divides(d, b) && Divides(d, r)
    ensures Divides(d, q * b + r)
  {
    DividesShape(d, b);
    DividesShape(d, r);
    var kb, kr := b / d, r / d;
    calc {
      q * b + r;
      q * (d * kb) + d * kr;
      d * (q * kb + kr);
    }
    DividesMultiple(d, q * kb + kr);
  }

  lemma NonNegativeFactor(d: nat, t: int)
    requires d > 0 && d * t >= 0
    ensures t >= 0
  {
  }

  /** d | a and d | b give d | a % b. */
  lemma DividesRemainder(d: nat, a: nat, b: nat)
    requires b > 0 && Divides(d, a) && Divides(d, b)
    ensures Divides(d, a % b)
  {
    DividesShape(d, a);
    DividesShape(d, b);
    var ka, kb := a / d, b / d;
    var q := a / b;
    assert a % b == a - q * b;
    assert q * b == d * (q * kb) by {
      calc {
        q * b;
        q * (d * kb);
        d * (q * kb);
      }
    }
    var t: int := ka - q * kb;
    assert a % b == d * t;
    NonNegativeFactor(d, t);
    DividesMultiple(d, t);
  }

  lemma DividesLe(d: nat, x: nat)
    requires Divides(d, x) && x > 0
    ensures d <= x
  {
    DividesShape(d, x);
  }

  /** Euclid's result divides both arguments and is positive unless both are 0. */
  lemma {:induction false} GcdDivides(a: nat, b: nat)
    requires a > 0 || b > 0
    ensures Gcd(a, b) > 0 && Divides(Gcd(a, b), a) && Divides(Gcd(a, b), b)
    decreases b
  {
    if b == 0 {
      assert a % a == 0;
    } else {
      GcdDivides(b, a % b);
      var g := Gcd(b, a % b);
      assert a == (a / b) * b + a % b;
      DividesCombination(g, a / b, b, a % b);
    }
  }

  /** Every common divisor divides Euclid's result. */
  lemma {:induction false} CommonDivisorDividesGcd(d: nat, a: nat, b: nat)
    requires Divides(d, a) && Divides(d, b)
    ensures Divides(d, Gcd(a, b))
    decreases b
  {
    if b != 0 {
      DividesRemainder(d, a, b);
      CommonDivisorDividesGcd(d, b, a % b);
    }
  }

  /** `[n // a, m // a]` for the value `a` the loop ends with. */
  function Reduced(n: nat, m: nat): (f: Frac)
    requires n > 0 || m > 0
    ensures m > 0 ==> f.den > 0
  {
    GcdDivides(n, m);
    if m > 0 then DividesLe(Gcd(n, m), m); Frac(n / Gcd(n, m), m / Gcd(n, m))
    else Frac(n / Gcd(n, m), m / Gcd(n, m))
  }

  /** `_simplify_fraction(n, m)`: the loop `a, b = b, a % b` until b is 0.
      Python raises ZeroDivisionError only for n == m == 0. */
  method SimplifyFraction(n: nat, m: nat) returns (f: Frac)
    requires n > 0 || m > 0
    ensures f == Reduced(n, m)
  {
    var a, b := n, m;
    while b != 0
      invariant Gcd(a, b) == Gcd(n, m)
      decreases b
    {
      a, b := b, a % b;
    }
    GcdDivides(n, m);
    f := Frac(n / a, m / a);
  }

  lemma ReducedShape(n: nat, m: nat)
    requires n > 0 || m > 0
    ensures Gcd(n, m) > 0
    ensures n == Gcd(n, m) * Reduced(n, m).num && m == Gcd(n, m) * Reduced(n, m).den
  {
    GcdDivides(n, m);
    DividesShape(Gcd(n, m), n);
    DividesShape(Gcd(n, m), m);
  }

  /** The simplified fraction has the same value: n / m == num / den. */
  lemma ReducedSameRatio(n: nat, m: nat)
    requires n > 0 || m > 0
    ensures Reduced(n, m).num * m == n * Reduced(n, m).den
  {
    ReducedShape(n, m);
    var g, f := Gcd(n, m), Reduced(n, m);
    calc {
      f.num * m;
      f.num * (g * f.den);
      (g * f.num) * f.den;
      n * f.den;
    }
  }

  /** h | x gives g * h | g * x. */
  lemma ScaledDivides(g: nat, h: nat, x: nat)
    requires g > 0 && Divides(h, x)
    ensures Divides(g * h, g * x)
  {
    DividesShape(h, x);
    var k := x / h;
    assert g * x == (g * h) * k by {
      calc {
        g * x;
        g * (h * k);
        (g * h) * k;
      }
    }
    DividesMultiple(g * h, k);
  }

  lemma UnitFactor(g: nat, h: nat)
    requires g > 0 && h > 0 && g * h <= g
    ensures h == 1
  {
  }

  /** The simplified fraction is in lowest terms. */
  lemma ReducedCoprime(n: nat, m: nat)
    requires n > 0 || m > 0
    ensures Gcd(Reduced(n, m).num, Reduced(n, m).den) == 1
  {
    ReducedShape(n, m);
    var g, f := Gcd(n, m), Reduced(n, m);
    assert f.num > 0 || f.den > 0;
    GcdDivides(f.num, f.den);
    var h := Gcd(f.num, f.den);
    ScaledDivides(g, h, f.num);
    ScaledDivides(g, h, f.den);
    CommonDivisorDividesGcd(g * h, n, m);
    DividesLe(g * h, g);
    UnitFactor(g, h);
  }

  /** `_simplify_fraction(0, m) == [0, 1]` */
  lemma ReducedZero(m: nat)
    requires m > 0
    ensures Reduced(0, m) == Frac(0, 1)
  {
    assert Gcd(m, 0 % m) == m;
  }

  // ---------------------------------------------------------------------
  // Fractional cell coordinates

  /** The four sides of the cell `global_id` of a width x height level, as
      reduced fractions of the level extent. */
  function CellFractions(gid: nat, width: nat, height: nat): (fc: FractCoords)
    requires width > 0 && height > 0
  {
    FractCoords(
      Reduced(gid % width, width), Reduced(gid % width + 1, width),
      Reduced(gid / width, height), Reduced(gid / width + 1, height))
  }

  /** `_get_fractional_coords(level, global_id, meta_level_info)` */
  method GetFractionalCoords(level: nat, gid: nat, levelInfo: seq<Dims>) returns (fc: FractCoords)
    requires level < |levelInfo|
    requires levelInfo[level].width > 0 && levelInfo[level].height > 0
    ensures fc == CellFractions(gid, levelInfo[level].width, levelInfo[level].height)
  {
    var width := levelInfo[level].width;
    var height := levelInfo[level].height;
    var u := gid % width;
    var v := gid / width;
    var xMin := SimplifyFraction(u, width);
    var xMax := SimplifyFraction(u + 1, width);
    var yMin := SimplifyFraction(v, height);
    var yMax := SimplifyFraction(v + 1, height);
    fc := FractCoords(xMin, xMax, yMin, yMax);
  }

  /** The value of a fraction, compared exactly instead of through floats. */
  predicate FracLess(a: Frac, b: Frac)
  {
    a.num * b.den < b.num * a.den
  }

  predicate FracEq(a: Frac, b: Frac)
  {
    a.num * b.den == b.num * a.den
  }

  /** Each side fraction is the exact ratio of the cell's column or row
      boundary to the level extent, in lowest terms, and x_max - x_min is one
      column. */
  lemma CellFractionsExact(gid: nat, width: nat, height: nat)
    requires width > 0 && height > 0
    ensures var fc := CellFractions(gid, width, height);
      && fc.xMin.num * width == (gid % width) * fc.xMin.den
      && fc.xMax.num * width == (gid % width + 1) * fc.xMax.den
      && fc.yMin.num * height == (gid / width) * fc.yMin.den
      && fc.yMax.num * height == (gid / width + 1) * fc.yMax.den
      && Gcd(fc.xMin.num, fc.xMin.den) == 1 && Gcd(fc.xMax.num, fc.xMax.den) == 1
      && Gcd(fc.yMin.num, fc.yMin.den) == 1 && Gcd(fc.yMax.num, fc.yMax.den) == 1
  {
    var u, v := gid % width, gid / width;
    ReducedSameRatio(u, width);
    ReducedSameRatio(u + 1, width);
    ReducedSameRatio(v, height);
    ReducedSameRatio(v + 1, height);
    ReducedCoprime(u, width);
    ReducedCoprime(u + 1, width);
    ReducedCoprime(v, height);
    ReducedCoprime(v + 1, height);
  }
}
