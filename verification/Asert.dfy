/**
 difficulty.py: the integer ASERT schedule. The target rises with the parent's timestamp, falls with
 its height, doubles every half-life and stays within its bounds.
 */
module Asert {
  import opened Types
  import Receiving

  const RADIX: nat := 0x1_0000

  function Pow2(n: nat): (r: nat)
    ensures r >= 1
  {
    if n == 0 then 1 else 2 * Pow2(n - 1)
  }

  /** x * y, added up. */
  function Product(x: nat, y: nat): nat {
    if y == 0 then 0 else Product(x, y - 1) + x
  }

  /** The polynomial that stands for a fractional power of two: see CubicIs. */
  function Cubic(frac: nat): nat {
    var square := Product(frac, frac);
    195_766_423_245_049 * frac + 971_821_376 * square + 5_127 * Product(square, frac) + 0x8000_0000_0000
  }

  /** Fixed-point 2^(frac / RADIX), times RADIX. */
  function Factor(frac: nat): nat {
    RADIX + Cubic(frac) / 0x1_0000_0000_0000
  }

  function Scaled(target: nat, factor: nat): nat { target * factor }

  /** Python's shift, to the left or to the right, and the final shift by 16 bits. */
  function Shifted(x: nat, shifts: int): nat {
    if shifts >= 0 then Over(x * Pow2(shifts), RADIX) else Over(Over(x, Pow2(-shifts)), RADIX)
  }

  function Over(x: nat, d: nat): nat
    requires d >= 1
  {
    x / d
  }

  /** The whole formula, before the clamp and without the two early returns. */
  function FullTarget(anchor: nat, exponent: int): nat {
    Shifted(Scaled(anchor, Factor(exponent % RADIX)), exponent / RADIX)
  }

  function Clamp(target: nat, powLimit: nat): nat {
    var low := if target <= powLimit then target else powLimit;
    if low >= 1 then low else 1
  }

  datatype Schedule = Schedule(anchorTarget: nat, anchorTimestamp: nat, anchorHeight: nat,
                               spacing: nat, halfLife: nat, powLimit: nat)

  predicate ValidSchedule(s: Schedule) {
    s.halfLife >= 1 && 1 <= s.anchorTarget < TWO_256 && 1 <= s.powLimit < TWO_256
  }

  /** How far behind the ideal schedule, in half-lives, times RADIX; division rounds down. */
  function Exponent(s: Schedule, timestamp: int, height: int): int
    requires s.halfLife >= 1
  {
    ((timestamp - s.anchorTimestamp - s.spacing * (height - s.anchorHeight)) * RADIX) / s.halfLife
  }

  /** difficulty.asert_target */
  function AsertTarget(s: Schedule, timestamp: int, height: int): nat
    requires s.halfLife >= 1
  {
    var exponent := Exponent(s, timestamp, height);
    var shifts := exponent / RADIX;
    var frac := exponent - shifts * RADIX;
    if shifts > 256 then s.powLimit
    else if shifts < -512 then 1
    else Clamp(Shifted(Scaled(s.anchorTarget, Factor(frac)), shifts), s.powLimit)
  }

  // --- division ---------------------------------------------------------------------------------------------

  lemma DivMonotone(a: int, b: int, d: nat)
    requires a <= b && d >= 1
    ensures a / d <= b / d
  {
    DivBounds(a, d);
    DivBounds(b, d);
    if a / d > b / d {
      MulMonotone(b / d + 1, a / d, d);
      assert false;
    }
  }

  lemma MulMonotone(a: int, b: int, d: nat)
    requires a <= b
    ensures a * d <= b * d
  {
  }

  /** Quotients are fixed by their bounds. */
  lemma DivIs(x: int, d: nat, q: int)
    requires d >= 1 && q * d <= x < (q + 1) * d
    ensures x / d == q
  {
    if x / d < q {
      MulMonotone(x / d + 1, q, d);
      assert false;
    } else if x / d > q {
      MulMonotone(q + 1, x / d, d);
      assert false;
    }
  }

  lemma DivBounds(x: int, d: nat)
    requires d >= 1
    ensures (x / d) * d <= x < (x / d + 1) * d
  {
  }

  lemma DivAddMultiple(x: int, k: int, d: nat)
    requires d >= 1
    ensures (x + k * d) / d == x / d + k
  {
    DivBounds(x, d);
    DivIs(x + k * d, d, x / d + k);
  }

  /** Halving twice is halving once by the product. */
  lemma DivDiv(x: nat, a: nat, b: nat)
    requires a >= 1 && b >= 1
    ensures (x / a) / b == x / (a * b)
  {
    var q := x / a;
    var r := q / b;
    DivBounds(x, a);
    DivBounds(q, b);
    assert r * b <= q <= (r + 1) * b - 1;
    MulMonotone(r * b, q, a);
    MulMonotone(q + 1, (r + 1) * b, a);
    assert r * b * a == r * (a * b) && (r + 1) * b * a == (r + 1) * (a * b);
    DivIs(x, a * b, r);
  }

  lemma DoubleOverDouble(y: nat, d: nat)
    requires d >= 1
    ensures (2 * y) / (2 * d) == y / d
  {
    DivBounds(y, d);
    DivIs(2 * y, 2 * d, y / d);
  }

  /** Doubling before the division gives twice the quotient, or one more. */
  lemma DoubleDiv(x: nat, d: nat)
    requires d >= 1
    ensures 2 * (x / d) <= (2 * x) / d <= 2 * (x / d) + 1
  {
    DivBounds(x, d);
    DivBounds(2 * x, d);
    var q, r := x / d, (2 * x) / d;
    if r < 2 * q {
      MulMonotone(r + 1, 2 * q, d);
      assert false;
    } else if r > 2 * q + 1 {
      MulMonotone(2 * q + 2, r, d);
      assert false;
    }
  }

  // --- shifting -----------------------------------------------------------------------------------------------

  lemma ShiftedMonotone(x: nat, y: nat, s: int)
    requires x <= y
    ensures Shifted(x, s) <= Shifted(y, s)
  {
    if s >= 0 {
      MulMonotone(x, y, Pow2(s));
      DivMonotone(x * Pow2(s), y * Pow2(s), RADIX);
    } else {
      DivMonotone(x, y, Pow2(-s));
      DivMonotone(x / Pow2(-s), y / Pow2(-s), RADIX);
    }
  }

  /** One more shift is a doubling, before the rounding. */
  lemma ShiftedDouble(y: nat, s: int)
    ensures Shifted(2 * y, s) == Shifted(y, s + 1)
  {
    if s >= 0 {
      assert 2 * y * Pow2(s) == y * Pow2(s + 1);
    } else {
      DoubleOverDouble(y, Pow2(-s - 1));
    }
  }

  /** One more shift doubles the result, up to rounding down. */
  lemma ShiftedNext(x: nat, s: int)
    ensures 2 * Shifted(x, s) <= Shifted(x, s + 1) <= 2 * Shifted(x, s) + 1
  {
    if s >= 0 {
      assert x * Pow2(s + 1) == 2 * (x * Pow2(s));
      DoubleDiv(x * Pow2(s), RADIX);
    } else {
      HalvedNext(x, Pow2(-s - 1), RADIX);
    }
  }

  lemma HalvedNext(x: nat, d: nat, r: nat)
    requires d >= 1 && r >= 1
    ensures 2 * ((x / (2 * d)) / r) <= (x / d) / r <= 2 * ((x / (2 * d)) / r) + 1
  {
    MulMonotone(1, d, r);
    DivDiv(x, d, r);
    DivDiv(x, 2 * d, r);
    DivDiv(x, d * r, 2);
    assert 2 * d * r == d * r * 2;
    HalfBounds(x / (d * r));
  }

  lemma HalfBounds(q: nat)
    ensures 2 * (q / 2) <= q <= 2 * (q / 2) + 1
  {
  }

  lemma {:induction false} ShiftedRises(x: nat, s: int, t: int)
    requires s <= t
    ensures Shifted(x, s) <= Shifted(x, t)
    decreases t - s
  {
    if s < t {
      ShiftedNext(x, s);
      ShiftedRises(x, s + 1, t);
    }
  }

  // --- the factor ---------------------------------------------------------------------------------------------

  lemma {:induction false} ProductIs(x: nat, y: nat)
    ensures Product(x, y) == x * y
  {
    if y > 0 { ProductIs(x, y - 1); }
  }

  lemma CubicIs(f: nat)
    ensures Cubic(f) ==
      195_766_423_245_049 * f + 971_821_376 * (f * f) + 5_127 * (f * f * f) + 0x8000_0000_0000
  {
    hide Product;
    ProductIs(f, f);
    ProductIs(f * f, f);
  }

  lemma {:induction false} ProductMonotone(x: nat, y: nat, a: nat, b: nat)
    requires x <= y && a <= b
    ensures Product(x, a) <= Product(y, b)
    decreases b
  {
    if b > 0 { ProductMonotone(x, y, if a > 0 then a - 1 else 0, b - 1); }
  }

  lemma CubicMonotone(f: nat, g: nat)
    requires f <= g
    ensures Cubic(f) <= Cubic(g)
  {
    hide Product;
    ProductMonotone(f, g, f, g);
    ProductMonotone(Product(f, f), Product(g, g), f, g);
  }

  /** The factor rises from exactly 1 to no more than 2. */
  lemma FactorMonotone(f: nat, g: nat)
    requires f <= g < RADIX
    ensures RADIX <= Factor(f) <= Factor(g) <= 2 * RADIX && Factor(0) == RADIX
  {
    CubicMonotone(f, g);
    CubicMonotone(g, RADIX - 1);
    CubicMonotone(0, f);
    CubicIs(RADIX - 1);
    CubicIs(0);
    hide Cubic;
    DivMonotone(Cubic(f), Cubic(g), 0x1_0000_0000_0000);
    DivMonotone(Cubic(g), Cubic(RADIX - 1), 0x1_0000_0000_0000);
    DivMonotone(Cubic(0), Cubic(f), 0x1_0000_0000_0000);
  }

  // --- the schedule -------------------------------------------------------------------------------------------

  lemma SameShift(anchor: nat, f: nat, g: nat, s: int)
    requires f <= g < RADIX
    ensures Shifted(Scaled(anchor, Factor(f)), s) <= Shifted(Scaled(anchor, Factor(g)), s)
  {
    hide *;
    FactorMonotone(f, g);
    ScaleMonotone(anchor, Factor(f), Factor(g));
    ShiftedMonotone(Scaled(anchor, Factor(f)), Scaled(anchor, Factor(g)), s);
  }

  lemma ScaleMonotone(anchor: nat, f: nat, g: nat)
    requires f <= g
    ensures Scaled(anchor, f) <= Scaled(anchor, g)
  {
    MulMonotone(f, g, anchor);
  }

  /** A factor between 1 and 2 leaves the product between the target and its double. */
  lemma ScaleBounds(anchor: nat, factor: nat)
    requires RADIX <= factor <= 2 * RADIX
    ensures Scaled(anchor, RADIX) <= Scaled(anchor, factor) <= 2 * Scaled(anchor, RADIX)
    ensures anchor >= 1 ==> Scaled(anchor, RADIX) >= RADIX
  {
    MulMonotone(RADIX, factor, anchor);
    MulMonotone(factor, 2 * RADIX, anchor);
  }

  /** No more than double before the shift boundary is no more than the like after it. */
  lemma ShiftedAcross(x: nat, y: nat, low: nat, s: int, t: int)
    requires x <= 2 * low && low <= y && s < t
    ensures Shifted(x, s) <= Shifted(y, t)
  {
    hide *;
    ShiftedMonotone(x, 2 * low, s);
    ShiftedDouble(low, s);
    ShiftedRises(low, s + 1, t);
    ShiftedMonotone(low, y, t);
  }

  lemma NextShift(anchor: nat, f: nat, g: nat, s: int, t: int)
    requires f < RADIX && g < RADIX && s < t
    ensures Shifted(Scaled(anchor, Factor(f)), s) <= Shifted(Scaled(anchor, Factor(g)), t)
  {
    hide *;
    FactorMonotone(f, f);
    FactorMonotone(g, g);
    ScaleBounds(anchor, Factor(f));
    ScaleBounds(anchor, Factor(g));
    ShiftedAcross(Scaled(anchor, Factor(f)), Scaled(anchor, Factor(g)), Scaled(anchor, RADIX), s, t);
  }

  /** The formula never falls as the exponent rises, across the boundaries of shifts too. */
  lemma FullMonotone(anchor: nat, e: int, f: int)
    requires e <= f
    ensures FullTarget(anchor, e) <= FullTarget(anchor, f)
  {
    hide Factor, Shifted, Scaled;
    DivMonotone(e, f, RADIX);
    if e / RADIX == f / RADIX {
      SameShift(anchor, e % RADIX, f % RADIX, e / RADIX);
    } else {
      NextShift(anchor, e % RADIX, f % RADIX, e / RADIX, f / RADIX);
    }
  }

  lemma {:induction false} Pow2Sum(a: nat, b: nat)
    ensures Pow2(a + b) == Pow2(a) * Pow2(b)
  {
    if a > 0 { Pow2Sum(a - 1, b); }
  }

  lemma Pow2Of256()
    ensures Pow2(256) == TWO_256
  {
    hide Pow2;
    var r32 := 0x1_0000_0000;
    Pow2Of32();
    Pow2Sum(32, 32);
    Pow2Sum(64, 64);
    Pow2Sum(128, 128);
    assert r32 * r32 == 0x1_0000_0000_0000_0000;
    assert (r32 * r32) * (r32 * r32) == 0x1_0000_0000_0000_0000_0000_0000_0000_0000;
  }

  lemma Pow2Of32()
    ensures Pow2(32) == 0x1_0000_0000
  {
    assert Pow2(4) == 16;
    Pow2Sum(4, 4);
    Pow2Sum(8, 8);
    Pow2Sum(16, 16);
  }

  lemma HighShift(x: nat, s: int)
    requires x >= RADIX && s >= 256
    ensures Shifted(x, s) >= TWO_256
  {
    hide Pow2;
    ShiftedMonotone(RADIX, x, 256);
    ShiftedRises(x, 256, s);
    Pow2Of256();
    DivIs(RADIX * TWO_256, RADIX, TWO_256);
  }

  lemma LowShift(x: nat, s: int)
    requires x < TWO_256 * TWO_256 && s <= -512
    ensures Shifted(x, s) == 0
  {
    hide Pow2;
    ShiftedRises(x, s, -512);
    Pow2Of256();
    Pow2Sum(256, 256);
    DivIs(x, TWO_256 * TWO_256, 0);
  }

  lemma ProductIsSmall(anchor: nat, factor: nat)
    requires anchor < TWO_256 && factor <= 2 * RADIX
    ensures Scaled(anchor, factor) < TWO_256 * TWO_256
  {
    MulMonotone(factor, 2 * RADIX, anchor);
  }

  /** Beyond 2^256 the clamp decides. */
  lemma HighIsLimit(anchor: nat, exponent: int, powLimit: nat)
    requires anchor >= 1 && exponent / RADIX > 256 && powLimit < TWO_256
    ensures FullTarget(anchor, exponent) > powLimit
  {
    hide Factor, Shifted, Scaled;
    FactorMonotone(0, exponent % RADIX);
    ScaleBounds(anchor, Factor(exponent % RADIX));
    HighShift(Scaled(anchor, Factor(exponent % RADIX)), exponent / RADIX);
  }

  /** Below 2^-512 nothing is left. */
  lemma LowIsNothing(anchor: nat, exponent: int)
    requires anchor < TWO_256 && exponent / RADIX < -512
    ensures FullTarget(anchor, exponent) == 0
  {
    hide Factor, Shifted, Scaled;
    FactorMonotone(0, exponent % RADIX);
    ProductIsSmall(anchor, Factor(exponent % RADIX));
    LowShift(Scaled(anchor, Factor(exponent % RADIX)), exponent / RADIX);
  }

  /** Both early returns give what the clamped full formula gives. */
  lemma EarlyReturnsAreClamped(s: Schedule, timestamp: int, height: int)
    requires ValidSchedule(s)
    ensures AsertTarget(s, timestamp, height) ==
      Clamp(FullTarget(s.anchorTarget, Exponent(s, timestamp, height)), s.powLimit)
  {
    hide Factor, Shifted, Exponent;
    var e := Exponent(s, timestamp, height);
    if e / RADIX > 256 { HighIsLimit(s.anchorTarget, e, s.powLimit); }
    if e / RADIX < -512 { LowIsNothing(s.anchorTarget, e); }
    assert e - e / RADIX * RADIX == e % RADIX;
  }

  lemma TargetInRange(s: Schedule, timestamp: int, height: int)
    requires ValidSchedule(s)
    ensures 1 <= AsertTarget(s, timestamp, height) <= s.powLimit
  {
    hide AsertTarget, FullTarget, Exponent;
    EarlyReturnsAreClamped(s, timestamp, height);
  }

  /** A later parent never makes the next block harder, and a higher one never makes it easier. */
  lemma TargetFollowsSchedule(s: Schedule, timestamp: int, height: int, later: int, lower: int)
    requires ValidSchedule(s) && timestamp <= later && lower <= height
    ensures AsertTarget(s, timestamp, height) <= AsertTarget(s, later, lower)
  {
    hide AsertTarget, FullTarget, Exponent;
    EarlyReturnsAreClamped(s, timestamp, height);
    EarlyReturnsAreClamped(s, later, lower);
    ExponentFollowsSchedule(s, timestamp, height, later, lower);
    FullMonotone(s.anchorTarget, Exponent(s, timestamp, height), Exponent(s, later, lower));
  }

  lemma ExponentFollowsSchedule(s: Schedule, timestamp: int, height: int, later: int, lower: int)
    requires s.halfLife >= 1 && timestamp <= later && lower <= height
    ensures Exponent(s, timestamp, height) <= Exponent(s, later, lower)
  {
    MulMonotone(lower - s.anchorHeight, height - s.anchorHeight, s.spacing);
    var a := timestamp - s.anchorTimestamp - s.spacing * (height - s.anchorHeight);
    var b := later - s.anchorTimestamp - s.spacing * (lower - s.anchorHeight);
    DivMonotone(a * RADIX, b * RADIX, s.halfLife);
  }

  /** One half-life more is exactly one doubling more in the exponent. */
  lemma BehindByOneMore(behind: int, halfLife: nat)
    requires halfLife >= 1
    ensures ((behind + halfLife) * RADIX) / halfLife == (behind * RADIX) / halfLife + RADIX
  {
    assert (behind + halfLife) * RADIX == behind * RADIX + RADIX * halfLife;
    DivAddMultiple(behind * RADIX, RADIX, halfLife);
  }

  lemma FullNext(anchor: nat, e: int)
    ensures 2 * FullTarget(anchor, e) <= FullTarget(anchor, e + RADIX) <= 2 * FullTarget(anchor, e) + 1
  {
    hide Factor, Shifted, Scaled;
    DivAddMultiple(e, 1, RADIX);
    ShiftedNext(Scaled(anchor, Factor(e % RADIX)), e / RADIX);
  }

  /** One half-life later the formula, before its clamp, gives twice as much, up to rounding down. */
  lemma HalfLifeDoubles(s: Schedule, timestamp: int, height: int)
    requires ValidSchedule(s)
    ensures var now := FullTarget(s.anchorTarget, Exponent(s, timestamp, height));
      2 * now <= FullTarget(s.anchorTarget, Exponent(s, timestamp + s.halfLife, height)) <= 2 * now + 1
  {
    hide FullTarget;
    BehindByOneMore(timestamp - s.anchorTimestamp - s.spacing * (height - s.anchorHeight), s.halfLife);
    FullNext(s.anchorTarget, Exponent(s, timestamp, height));
  }

  lemma ZeroExponent(anchor: nat)
    ensures FullTarget(anchor, 0) == anchor
  {
    hide Factor;
    FactorMonotone(0, 0);
    DivIs(anchor * RADIX, RADIX, anchor);
  }

  /** A chain exactly on schedule has exactly the anchor's target. */
  lemma OnScheduleKeepsAnchor(s: Schedule, timestamp: int, height: int)
    requires ValidSchedule(s) && s.anchorTarget <= s.powLimit
    requires timestamp - s.anchorTimestamp == s.spacing * (height - s.anchorHeight)
    ensures AsertTarget(s, timestamp, height) == s.anchorTarget
  {
    hide Factor, FullTarget, AsertTarget;
    EarlyReturnsAreClamped(s, timestamp, height);
    ZeroExponent(s.anchorTarget);
    DivIs(0, s.halfLife, 0);
  }

  // --- the network's targets -------------------------------------------------------------------------------------

  /** difficulty.next_target; `noRetarget` holds the fixed target of a network that has one. */
  function NextTarget(s: Schedule, noRetarget: Option<nat>, parent: BlockHeader): nat
    requires s.halfLife >= 1
  {
    if noRetarget.Some? then noRetarget.value else AsertTarget(s, parent.timestamp, parent.height)
  }

  /** The targets of these network parameters are those of a schedule. */
  ghost predicate Follows(p: Params, s: Schedule, noRetarget: Option<nat>) {
    && ValidSchedule(s) && p.powLimit == s.powLimit
    && (noRetarget.Some? ==> 1 <= noRetarget.value <= s.powLimit)
    && forall h :: p.nextTarget(h) == NextTarget(s, noRetarget, h)
  }

  /** What the other modules ask of the targets: none above the limit, and every block adds work. */
  lemma FollowingIsBounded(p: Params, s: Schedule, noRetarget: Option<nat>)
    requires Follows(p, s, noRetarget)
    ensures Receiving.TargetsBounded(p)
    ensures forall h :: 1 <= p.nextTarget(h) < TWO_256
  {
    hide AsertTarget;
    forall h
      ensures 1 <= p.nextTarget(h) <= p.powLimit
    {
      TargetInRange(s, h.timestamp, h.height);
    }
  }
}
