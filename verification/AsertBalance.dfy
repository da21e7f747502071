/**
 How good the cubic of the target schedule is: the factors for a fraction of a half-life and for the rest of it
 multiply to two, to within a thousandth.
 */
module AsertBalance {
  import opened Types
  import opened Asert

  lemma Squares(x: int, y: int, r: int)
    requires x + y == r
    ensures x * x + y * y == r * r - 2 * (x * y)
  {
    assert r * r == (x + y) * (x + y);
  }

  lemma Cubes(x: int, y: int, r: int)
    requires x + y == r
    ensures x * (x * x) + y * (y * y) == r * (r * r) - 3 * r * (x * y)
  {
    Squares(x, y, r);
    var g := x * y;
    assert r * (x * x + y * y) == r * (r * r - 2 * g);
    assert r * (x * x + y * y) == x * (x * x) + y * (x * x) + x * (y * y) + y * (y * y);
    assert y * (x * x) + x * (y * y) == r * g;
  }

  /** A cubic without constant term. */
  function Poly(a: int, b: int, c: int, x: int): int { a * x + b * (x * x) + c * (x * (x * x)) }

  lemma PolySum(a: int, b: int, c: int, x: int, y: int, r: int)
    requires x + y == r
    ensures Poly(a, b, c, x) + Poly(a, b, c, y)
            == a * r + b * (r * r - 2 * (x * y)) + c * (r * (r * r) - 3 * r * (x * y))
  {
    Squares(x, y, r);
    Cubes(x, y, r);
    Distribute(a, x, y);
    Distribute(b, x * x, y * y);
    Distribute(c, x * (x * x), y * (y * y));
  }

  lemma Distribute(k: int, x: int, y: int)
    ensures k * x + k * y == k * (x + y)
  {
  }

  /** The inner factor of the cubic. */
  function Inner(a: int, b: int, c: int, x: int): int { a + b * x + c * (x * x) }

  lemma PolyIsProduct(a: int, b: int, c: int, x: int)
    ensures Poly(a, b, c, x) == x * Inner(a, b, c, x)
  {
    assert x * (b * x) == b * (x * x);
    assert x * (c * (x * x)) == c * (x * (x * x));
  }

  lemma Regroup(k: int, x: int, m: int, y: int)
    ensures (k * x) * (m * y) == (k * m) * (x * y)
  {
    assert (k * x) * (m * y) == k * (x * (m * y)) == k * (m * (x * y));
  }

  lemma Linear(a: int, b: int, x: int, y: int)
    ensures a * (b * y) + (b * x) * a == (a * b) * (x + y)
  {
    assert a * (b * y) == (a * b) * y && (b * x) * a == (a * b) * x;
    Distribute(a * b, x, y);
  }

  lemma Mixed(b: int, c: int, x: int, y: int)
    ensures (b * x) * (c * (y * y)) + (c * (x * x)) * (b * y) == (b * c) * ((x + y) * (x * y))
  {
    Regroup(b, x, c, y * y);
    Regroup(c, x * x, b, y);
    var g := x * y;
    assert x * (y * y) == y * g && (x * x) * y == x * g;
    assert (x + y) * g == x * g + y * g;
    Distribute(b * c, y * g, x * g);
  }

  lemma InnerProduct(a: int, b: int, c: int, x: int, y: int, r: int)
    requires x + y == r
    ensures var g := x * y;
      Inner(a, b, c, x) * Inner(a, b, c, y)
      == a * a + (a * b) * r + (a * c) * (r * r - 2 * g) + (b * b) * g + (b * c) * (r * g) + (c * c) * (g * g)
  {
    Squares(x, y, r);
    Expand(a, b * x, c * (x * x), a, b * y, c * (y * y));
    Linear(a, b, x, y);
    Linear(a, c, x * x, y * y);
    Regroup(b, x, b, y);
    Mixed(b, c, x, y);
    Regroup(c, x * x, c, y * y);
    Regroup(x, x, y, y);
    assert (c * c) * ((x * x) * (y * y)) == (c * c) * ((x * y) * (x * y));
  }

  lemma Expand(p: int, q: int, s: int, t: int, u: int, v: int)
    ensures (p + q + s) * (t + u + v) ==
      p * t + p * u + q * t + p * v + s * t + q * u + q * v + s * u + s * v
  {
  }

  /** 2^64, the cubic's one. */
  const ONE: int := 0x1_0000_0000_0000_0000
  const HALF: int := 0x8000_0000_0000
  const A: int := 195_766_423_245_049
  const B: int := 971_821_376
  const C: int := 5_127

  lemma Up(a: int, b: int, k: int)
    requires 0 <= a <= b && 0 <= k
    ensures 0 <= a * k <= b * k
  {
  }

  lemma SquareOfDifference(m: int, g: int)
    ensures 4 * (m * g - g * g) <= m * m
  {
    var d := m - 2 * g;
    assert d * d == m * d - 2 * g * d == m * m - 4 * (m * g) + 4 * (g * g);
    assert d * d >= 0;
  }

  /** What the powers of g allow. */
  lemma Powers(g: int, m: int)
    requires 0 <= g <= m
    ensures 0 <= g * g <= m * g <= m * m && 4 * (m * g - g * g) <= m * m
    ensures 0 <= g * (g * g) <= m * (g * g) <= m * (m * m)
  {
    Up(g, m, g);
    Up(g, m, m);
    SquareOfDifference(m, g);
    Up(g, m, g * g);
    Up(g * g, m * m, m);
  }

  /** The sum and the product of two values of the cubic at x and RADIX - x, by the product of the arguments. */
  function SumAt(g: int): int { 18446811546856783872 - 2951651968 * g }
  function ProductAt(g: int): int {
    55103550976617770304126554673 * g - 736417149332931998 * (g * g) + 26286129 * (g * (g * g))
  }

  lemma CubicPair(x: int)
    ensures var g := x * (65536 - x);
      Poly(A, B, C, x) + Poly(A, B, C, 65536 - x) == SumAt(g)
      && Poly(A, B, C, x) * Poly(A, B, C, 65536 - x) == ProductAt(g)
  {
    var y, r := 65536 - x, 65536;
    var g := x * y;
    PolySum(A, B, C, x, y, r);
    PolyIsProduct(A, B, C, x);
    PolyIsProduct(A, B, C, y);
    InnerProduct(A, B, C, x, y, r);
    Regroup(x, Inner(A, B, C, x), y, Inner(A, B, C, y));
    hide Poly, Inner;
    var inner := 55103550976617770304126554673 - 736417149332931998 * g + 26286129 * (g * g);
    assert Inner(A, B, C, x) * Inner(A, B, C, y) == inner;
    assert Poly(A, B, C, x) * Poly(A, B, C, y) == g * inner by { Swap(x, Inner(A, B, C, x), y, Inner(A, B, C, y)); }
    Thrice(g, 55103550976617770304126554673, 736417149332931998, 26286129);
  }

  lemma Swap(x: int, u: int, y: int, v: int)
    ensures (x * u) * (y * v) == (x * y) * (u * v)
  {
    Regroup(x, u, y, v);
  }

  lemma Thrice(g: int, k: int, l: int, m: int)
    ensures g * (k - l * g + m * (g * g)) == k * g - l * (g * g) + m * (g * (g * g))
  {
  }

  /** Close to twice one. */
  lemma PairIsNear(g: int)
    requires 0 <= g <= 0x4000_0000
    ensures var d := ONE * SumAt(g) + ProductAt(g) - ONE * ONE;
      -ONE * ONE <= 1400 * d <= ONE * ONE
  {
    Powers(g, 0x4000_0000);
  }

  const UNIT: int := 0x1_0000_0000_0000

  /** The factor in units of 2^-48 is the cubic, rounded. */
  lemma FactorIsRounded(f: nat)
    ensures -HALF <= UNIT * Factor(f) - (ONE + Poly(A, B, C, f)) <= HALF
  {
    CubicIs(f);
    assert f * f * f == f * (f * f);
    DivBounds(Cubic(f), 0x1_0000_0000_0000);
    hide Cubic;
    assert UNIT * Factor(f) == ONE + UNIT * (Cubic(f) / 0x1_0000_0000_0000);
  }

  lemma RoundedTerms(x: int, y: int, e: int, d: int)
    ensures (e + x) * (d + y) - e * d == x * d + y * e + x * y
  {
  }

  lemma RoundedProduct(x: int, y: int, e: int, d: int, h: int, m: int)
    requires -h <= x <= h && -h <= y <= h && 0 <= e <= m && 0 <= d <= m && 0 <= h
    ensures -(2 * (h * m) + h * h) <= (e + x) * (d + y) - e * d <= 2 * (h * m) + h * h
  {
    RoundedTerms(x, y, e, d);
    Within(x, h, d, m);
    Within(y, h, e, m);
    Within2(x, y, h);
  }

  lemma Within(x: int, h: int, d: int, m: int)
    requires -h <= x <= h && 0 <= d <= m && 0 <= h
    ensures -(h * m) <= x * d <= h * m
  {
    assert (h - x) * d >= 0 && (h + x) * d >= 0 && h * (m - d) >= 0;
  }

  lemma Within2(x: int, y: int, h: int)
    requires -h <= x <= h && -h <= y <= h
    ensures -(h * h) <= x * y <= h * h
  {
    if y >= 0 { Within(x, h, y, h); } else { Within(x, h, -y, h); }
  }

  lemma PolyRange(x: nat)
    requires x <= 65536
    ensures 0 <= Poly(A, B, C, x) <= 2 * ONE
  {
    Powers(x, 65536);
  }

  /** The product of both cubics, one added to each. */
  lemma OnePlus(p: int, q: int)
    ensures (ONE + p) * (ONE + q) == ONE * ONE + ONE * (p + q) + p * q
  {
  }

  lemma Area(f: nat)
    requires f <= 65536
    ensures 0 <= f * (65536 - f) <= 0x4000_0000
  {
    SquareOfDifference(65536, f);
    Up(f, 65536, f);
    assert f * (65536 - f) == 65536 * f - f * f;
  }

  /** The factors of two fractions that add up to one multiply to two, to within a thousandth: the factor is a power
      of two, and no straight line. */
  lemma FactorsBalance(f: nat)
    requires f <= RADIX
    ensures var square: int := RADIX * RADIX;
      -square <= 1000 * (Factor(f) * Factor(RADIX - f) - 2 * square) <= square
  {
    hide Factor, Cubic, Poly, SumAt, ProductAt;
    var u, v := Factor(f), Factor(RADIX - f);
    var p, q := Poly(A, B, C, f), Poly(A, B, C, RADIX - f);
    Area(f);
    CubicPair(f);
    PairIsNear(f * (65536 - f));
    OnePlus(p, q);
    FactorIsRounded(f);
    FactorIsRounded(RADIX - f);
    PolyRange(f);
    PolyRange(RADIX - f);
    RoundedProduct(UNIT * u - (ONE + p), UNIT * v - (ONE + q), ONE + p, ONE + q, HALF, 3 * ONE);
    assert (ONE + p) + (UNIT * u - (ONE + p)) == UNIT * u && (ONE + q) + (UNIT * v - (ONE + q)) == UNIT * v;
    Regroup(UNIT, u, UNIT, v);
  }
}
