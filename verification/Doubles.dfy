/** Binary64 numbers, as far as dividing two sizes and rounding up needs them: rounding to nearest as in section
    4.3.1 of IEEE 754-2019, with either choice on ties. */
module Doubles {

  const PRECISION := 0x20_0000_0000_0000 // 2^53

  function Pow2(n: nat): (p: nat)
    ensures p >= 1
  {
    if n == 0 then 1 else 2 * Pow2(n - 1)
  }

  /** An integer of at most 53 bits, scaled by a power of two within the exponent range. */
  ghost predicate IsDouble(x: real) {
    || (exists m: int, k: nat :: -PRECISION < m < PRECISION && k <= 1074 && IsScaledDown(x, m, k))
    || (exists m: int, j: nat :: -PRECISION < m < PRECISION && j <= 971 && IsScaledUp(x, m, j))
  }

  ghost predicate IsScaledDown(x: real, m: int, k: nat) {
    x * Pow2(k) as real == m as real
  }

  ghost predicate IsScaledUp(x: real, m: int, j: nat) {
    x == (m * Pow2(j)) as real
  }

  function Abs(x: real): real {
    if x < 0.0 then -x else x
  }

  /** `f` is a result of rounding `q`: no double is closer. */
  ghost predicate IsNearest(f: real, q: real) {
    IsDouble(f) && forall g: real :: IsDouble(g) ==> Abs(f - q) <= Abs(g - q)
  }

  function Ceil(x: real): int {
    -((-x).Floor)
  }

  function CeilDiv(a: nat, b: nat): nat
    requires b > 0
  {
    (a + b - 1) / b
  }

  lemma IntegerIsDouble(n: nat)
    requires n <= PRECISION
    ensures IsDouble(n as real)
  {
    if n == PRECISION {
      Pow53();
      assert IsScaledUp(n as real, 1, 53);
    } else {
      assert Pow2(0) == 1;
      assert IsScaledDown(n as real, n, 0);
    }
  }

  /** Sizes below 2^53 are converted exactly. */
  lemma SmallSizeExact(f: real, n: nat)
    requires n <= PRECISION && IsNearest(f, n as real)
    ensures f == n as real
  {
    IntegerIsDouble(n);
  }

  // ----- Powers of two -----

  /** The largest power of two not above `m`. */
  lemma {:induction false} TopBit(m: nat) returns (e: nat)
    requires m >= 1
    ensures Pow2(e) <= m < 2 * Pow2(e)
  {
    if m == 1 {
      e := 0;
    } else {
      var h := TopBit(m / 2);
      e := h + 1;
    }
  }

  lemma {:induction false} Pow2Monotone(a: nat, b: nat)
    requires a <= b
    ensures Pow2(a) <= Pow2(b)
    decreases b
  {
    if a < b { Pow2Monotone(a, b - 1); }
  }

  lemma {:induction false} Pow2Product(a: nat, b: nat)
    ensures Pow2(a) * Pow2(b) == Pow2(a + b)
    decreases b
  {
    if b > 0 {
      Pow2Product(a, b - 1);
      assert Pow2(a) * (2 * Pow2(b - 1)) == 2 * (Pow2(a) * Pow2(b - 1));
    }
  }

  lemma Pow52()
    ensures 2 * Pow2(52) == PRECISION
  {
    Pow2Product(26, 26);
    Pow2Product(13, 13);
    assert Pow2(13) == 8192;
  }

  lemma Pow53()
    ensures Pow2(53) == PRECISION
  {
    Pow52();
  }

  lemma BigPower(e: nat)
    requires e >= 53
    ensures Pow2(e) >= PRECISION
  {
    Pow53();
    Pow2Monotone(53, e);
  }

  // ----- Multiplication, where the solver needs a hand -----

  lemma TimesLess(x: real, y: real, z: real)
    requires x < y && z > 0.0
    ensures x * z < y * z
  {}

  lemma TimesLessEq(x: nat, y: nat, z: nat)
    requires x <= y
    ensures x * z <= y * z
  {}

  lemma LessIfTimesLess(x: nat, y: nat, z: nat)
    requires x * z < y * z
    ensures x < y
  {
    if x >= y { TimesLessEq(y, x, z); }
  }

  lemma RealProduct(x: nat, y: nat)
    ensures x as real * y as real == (x * y) as real
  {}

  // ----- A double just above an integer -----

  lemma Inverse(p: nat)
    requires p >= 1
    ensures (1.0 / p as real) * p as real == 1.0 && 1.0 / p as real > 0.0
  {}

  /** `m + 1/p` scaled by `p`. */
  lemma Scaled(m: nat, p: nat, g: real)
    requires p >= 1 && g == m as real + 1.0 / p as real
    ensures g > m as real && (g - m as real) * p as real == 1.0 && g * p as real == (m * p + 1) as real
  {
    Inverse(p);
    RealProduct(m, p);
    assert g * p as real == m as real * p as real + (1.0 / p as real) * p as real;
  }

  lemma MantissaFits(m: nat, q: nat, p: nat)
    requires m < 2 * q && m + 1 < PRECISION && p >= 1 && 2 * (q * p) == PRECISION
    ensures m * p + 1 < PRECISION
  {
    TimesLessEq(m + 1, 2 * q, p);
    assert (2 * q) * p == 2 * (q * p);
    assert (m + 1) * p == m * p + p;
  }

  lemma ScaledDownIsDouble(g: real, m: int, k: nat)
    requires -PRECISION < m < PRECISION && k <= 1074 && g * Pow2(k) as real == m as real
    ensures IsDouble(g)
  {
    assert IsScaledDown(g, m, k);
  }

  /** Just above a positive integer of at most 53 bits there is a double within one unit in its last place. */
  lemma DoubleAbove(m: nat, q: nat, k: nat, p: nat) returns (g: real)
    requires p == Pow2(k) && k <= 52 && 2 * (q * p) == PRECISION && m < 2 * q && m + 1 < PRECISION
    ensures IsDouble(g) && IsSpaced(g, m, p)
  {
    g := m as real + 1.0 / p as real;
    Scaled(m, p, g);
    MantissaFits(m, q, p);
    ScaledDownIsDouble(g, m * p + 1, k);
  }

  lemma TinyDouble(b: nat) returns (g: real)
    requires 1 <= b < PRECISION
    ensures IsDouble(g) && g > 0.0 && g * b as real < 2.0
  {
    g := 1.0 / PRECISION as real;
    Inverse(PRECISION);
    Pow53();
    ScaledDownIsDouble(g, 1, 53);
    LessThanTwo(g, b as real, PRECISION as real);
  }

  /** Between an integer `m` below `a / b` and the mirror image of `m` in `a / b` there is a double. */
  lemma DoubleNearby(a: nat, b: nat, m: nat) returns (g: real)
    requires 1 <= b < PRECISION && a < PRECISION && m * b < a
    ensures IsDouble(g) && IsJustAbove(g, m, b)
  {
    if m == 0 {
      g := TinyDouble(b);
    } else {
      var e := TopBit(m);
      BitsBounded(m, e, a, b);
      TimesLessEq(1, b, m);
      HalvesOfPrecision(e);
      DivisorBounded(b, Pow2(e), Pow2(52 - e), a, m);
      g := DoubleWithin(m, b, Pow2(e), 52 - e, Pow2(52 - e));
    }
  }

  ghost predicate IsJustAbove(g: real, m: nat, b: nat) {
    g > m as real && (g - m as real) * b as real < 2.0
  }

  lemma DoubleWithin(m: nat, b: nat, q: nat, k: nat, p: nat) returns (g: real)
    requires p == Pow2(k) && k <= 52 && 2 * (q * p) == PRECISION && m < 2 * q && m + 1 < PRECISION && b < 2 * p
    ensures IsDouble(g) && IsJustAbove(g, m, b)
  {
    g := DoubleAbove(m, q, k, p);
    SpacedIsJustAbove(g, m, b, p);
  }

  ghost predicate IsSpaced(g: real, m: nat, p: nat) {
    g > m as real && (g - m as real) * p as real == 1.0
  }

  lemma SpacedIsJustAbove(g: real, m: nat, b: nat, p: nat)
    requires IsSpaced(g, m, p) && b < 2 * p
    ensures IsJustAbove(g, m, b)
  {
    LessThanTwo(g - m as real, b as real, p as real);
  }

  lemma HalvesOfPrecision(e: nat)
    requires e <= 52
    ensures 2 * (Pow2(e) * Pow2(52 - e)) == PRECISION
  {
    Pow2Product(e, 52 - e);
    Pow52();
  }

  lemma BitsBounded(m: nat, e: nat, a: nat, b: nat)
    requires Pow2(e) <= m && m * b < a < PRECISION && b >= 1
    ensures e <= 52
  {
    TimesLessEq(1, b, m);
    if e >= 53 { BigPower(e); }
  }

  lemma DivisorBounded(b: nat, q: nat, p: nat, a: nat, m: nat)
    requires 2 * (q * p) == PRECISION && q <= m && m * b < a < PRECISION
    ensures b < 2 * p
  {
    TimesLessEq(q, m, b);
    Commutes(q, b);
    TwiceProduct(q, p);
    LessIfTimesLess(b, 2 * p, q);
  }

  lemma Commutes(x: nat, y: nat)
    ensures x * y == y * x
  {}

  lemma TwiceProduct(q: nat, p: nat)
    ensures (2 * p) * q == 2 * (q * p)
  {}

  lemma PositiveProduct(x: real, y: real)
    requires x > 0.0 && y > 0.0
    ensures x * y > 0.0
  {}

  lemma TwiceLess(p: real, b: real, d: real)
    ensures d * (2.0 * p - b) == 2.0 * (d * p) - d * b
  {}

  lemma LessThanTwo(d: real, b: real, p: real)
    requires d > 0.0 && d * p == 1.0 && b < 2.0 * p
    ensures d * b < 2.0
  {
    calc {
      d * b;
    < { PositiveProduct(d, 2.0 * p - b); TwiceLess(p, b, d); }
      2.0 * (d * p);
    ==
      2.0;
    }
  }

  // ----- Rounding up a quotient -----

  lemma CeilDivBounds(a: nat, b: nat)
    requires b >= 1
    ensures CeilDiv(a, b) * b >= a && CeilDiv(a, b) <= a
    ensures a > 0 ==> CeilDiv(a, b) >= 1 && (CeilDiv(a, b) - 1) * b < a
  {
    var c := CeilDiv(a, b);
    assert a + b - 1 == c * b + (a + b - 1) % b;
    if a > 0 {
      assert (c - 1) * b == c * b - b;
      TimesLessEq(1, b, if c >= 1 then c - 1 else 0);
    }
  }

  /** Rounding the quotient of two sizes below 2^53 never crosses an integer, so its ceiling is the exact one. */
  lemma CeilingExact(a: nat, b: nat, f: real)
    requires a < PRECISION && 1 <= b < PRECISION && IsNearest(f, a as real / b as real)
    ensures Ceil(f) == CeilDiv(a, b)
  {
    var q, c := a as real / b as real, CeilDiv(a, b);
    CeilDivBounds(a, b);
    IntegerIsDouble(c);
    QuotientBelow(a, b, c, q);
    assert f <= c as real;
    if a == 0 {
      IntegerIsDouble(0);
    } else {
      NotBelow(a, b, c - 1, f);
    }
  }

  lemma QuotientBelow(a: nat, b: nat, c: nat, q: real)
    requires b >= 1 && q == a as real / b as real && c * b >= a
    ensures q <= c as real
  {
    assert q * b as real == a as real;
    RealProduct(c, b);
    if q > c as real { TimesLess(c as real, q, b as real); }
  }

  /** The rounded quotient stays above every integer the quotient is above. */
  lemma NotBelow(a: nat, b: nat, m: nat, f: real)
    requires a < PRECISION && 1 <= b < PRECISION && m * b < a && IsNearest(f, a as real / b as real)
    ensures f > m as real
  {
    var q := a as real / b as real;
    var g := DoubleNearby(a, b, m);
    Closer(a, b, m, q, g);
    assert Abs(f - q) <= Abs(g - q);
  }

  lemma Closer(a: nat, b: nat, m: nat, q: real, g: real)
    requires b >= 1 && q == a as real / b as real && m * b < a && IsJustAbove(g, m, b)
    ensures q > m as real && Abs(g - q) < q - m as real
  {
    var r, d := b as real, q - m as real;
    assert q * r == a as real;
    RealProduct(m, b);
    assert d * r == a as real - m as real * r;
    if d <= 0.0 { TimesLess(d - 1.0, 0.0, r); }
    if g - m as real >= 2.0 * d { AtLeastTwice(g - m as real, d, r); }
  }

  lemma AtLeastTwice(x: real, d: real, r: real)
    requires x >= 2.0 * d && r > 0.0
    ensures x * r >= 2.0 * (d * r)
  {
    if x > 2.0 * d { TimesLess(2.0 * d, x, r); }
    assert (2.0 * d) * r == 2.0 * (d * r);
  }

  // ----- Beyond 2^53 -----

  /** Above 2^53 every double is an even integer. */
  lemma DoublesBeyondAreEven(g: real)
    requires IsDouble(g) && g > PRECISION as real
    ensures exists h: int :: g == (2 * h) as real
  {
    if m: int, k: nat :| -PRECISION < m < PRECISION && k <= 1074 && IsScaledDown(g, m, k) {
      ScaledDownIsSmall(g, m, Pow2(k));
    } else {
      var m: int, j: nat :| -PRECISION < m < PRECISION && j <= 971 && IsScaledUp(g, m, j);
      if j > 0 {
        var h := m * Pow2(j - 1);
        assert m * Pow2(j) == m * (2 * Pow2(j - 1)) == 2 * h;
        assert g == (2 * h) as real;
      }
    }
  }

  lemma ScaledDownIsSmall(g: real, m: int, p: nat)
    requires m <= PRECISION && p >= 1 && g * p as real == m as real
    ensures g <= PRECISION as real
  {
    if g > PRECISION as real { PositiveProduct(g - PRECISION as real, p as real); }
  }

  /** A converted size is a whole number. */
  lemma ConvertedIsWhole(f: real, a: nat)
    requires IsNearest(f, a as real)
    ensures f.Floor >= 0 && f == f.Floor as real
  {
    if a <= PRECISION {
      SmallSizeExact(f, a);
    } else {
      IntegerIsDouble(PRECISION);
      assert Abs(f - a as real) <= Abs(PRECISION as real - a as real);
      if f > PRECISION as real { DoublesBeyondAreEven(f); }
    }
  }

  lemma Cancel(x: real, y: real, p: real)
    requires p > 0.0 && x * p == y * p
    ensures x == y
  {
    if x < y { TimesLess(x, y, p); }
    if y < x { TimesLess(y, x, p); }
  }

  lemma Associates(x: real, y: real, z: real)
    ensures x * (y * z) == (x * y) * z
  {}

  lemma IntProduct(m: int, p: nat)
    ensures (m * p) as real == m as real * p as real
  {}

  /** If `q` times `pd * pj` is `m` times `pj`, then `q` times `pd` is `m`. */
  lemma CancelLower(q: real, m: int, pd: nat, pj: nat, pk: nat)
    requires pj >= 1 && pk == pd * pj && q * pk as real == (m * pj) as real
    ensures q * pd as real == m as real
  {
    RealProduct(pd, pj);
    Associates(q, pd as real, pj as real);
    IntProduct(m, pj);
    Cancel(q * pd as real, m as real, pj as real);
  }

  /** If `q` times `pk` is `m` times `pd * pk`, then `q` is `m` times `pd`. */
  lemma CancelUpper(q: real, m: int, pd: nat, pk: nat, pj: nat)
    requires pk >= 1 && pj == pd * pk && q * pk as real == (m * pj) as real
    ensures q == (m * pd) as real
  {
    RealProduct(pd, pk);
    IntProduct(m, pj);
    IntProduct(m, pd);
    Associates(m as real, pd as real, pk as real);
    Cancel(q, (m * pd) as real, pk as real);
  }

  /** If `q` times `pk` times `pj` is `m`, then `q` times their product is. */
  lemma JoinFactors(q: real, f: real, m: int, pk: nat, pj: nat, p: nat)
    requires p == pk * pj && q * pk as real == f && f * pj as real == m as real
    ensures q * p as real == m as real
  {
    RealProduct(pk, pj);
    Associates(q, pk as real, pj as real);
  }

  lemma FactorBound(f: real, p: nat, m: int)
    requires f >= 1.0 && f * p as real == m as real
    ensures p <= m
  {
    if f > 1.0 && p > 0 { TimesLess(1.0, f, p as real); }
  }

  lemma FractionExponent(f: real, m: int, j: nat)
    requires f >= 1.0 && m < PRECISION && IsScaledDown(f, m, j)
    ensures j <= 52
  {
    FactorBound(f, Pow2(j), m);
    if j >= 53 { BigPower(j); }
  }

  lemma ShiftFraction(f: real, m: int, j: nat, k: nat, q: real)
    requires -PRECISION < m < PRECISION && k + j <= 1074 && IsScaledDown(f, m, j) && IsShift(q, k, f)
    ensures IsDouble(q)
  {
    Pow2Product(k, j);
    JoinFactors(q, f, m, Pow2(k), Pow2(j), Pow2(k + j));
    assert IsScaledDown(q, m, k + j);
  }

  lemma ShiftUp(f: real, m: int, d: nat, k: nat, q: real)
    requires IsScaledUp(f, m, d + k) && IsShift(q, k, f)
    ensures IsScaledUp(q, m, d)
  {
    Pow2Product(d, k);
    CancelUpper(q, m, Pow2(d), Pow2(k), Pow2(d + k));
  }

  lemma ShiftDown(f: real, m: int, j: nat, d: nat, q: real)
    requires IsScaledUp(f, m, j) && IsShift(q, d + j, f)
    ensures IsScaledDown(q, m, d)
  {
    Pow2Product(d, j);
    CancelLower(q, m, Pow2(d), Pow2(j), Pow2(d + j));
  }

  /** `q` is `f` divided by `2^k`. */
  ghost predicate IsShift(q: real, k: nat, f: real) {
    q * Pow2(k) as real == f
  }

  lemma ShiftOfZero(q: real, k: nat)
    requires IsShift(q, k, 0.0)
    ensures q == 0.0
  {
    Cancel(q, 0.0, Pow2(k) as real);
  }

  /** Dividing a whole double by a power of two is exact. */
  lemma ShiftedIsDouble(f: real, k: nat, q: real)
    requires IsDouble(f) && (f == 0.0 || f >= 1.0) && k <= 63 && IsShift(q, k, f)
    ensures IsDouble(q)
  {
    if f == 0.0 {
      ShiftOfZero(q, k);
    } else if m: int, j: nat :| -PRECISION < m < PRECISION && j <= 1074 && IsScaledDown(f, m, j) {
      FractionExponent(f, m, j);
      ShiftFraction(f, m, j, k, q);
    } else {
      var m: int, j: nat :| -PRECISION < m < PRECISION && j <= 971 && IsScaledUp(f, m, j);
      if j >= k { ShiftUp(f, m, j - k, k, q); } else { ShiftDown(f, m, j, k - j, q); }
    }
  }

  lemma CeilOfQuotient(n: nat, p: nat, d: real)
    requires p >= 1 && d == n as real / p as real
    ensures Ceil(d) == CeilDiv(n, p)
  {
    var c := CeilDiv(n, p);
    CeilDivBounds(n, p);
    QuotientBelow(n, p, c, d);
    if n > 0 { QuotientAbove(n, p, c - 1, d); }
  }

  lemma QuotientAbove(n: nat, p: nat, m: nat, d: real)
    requires p >= 1 && d == n as real / p as real && m * p < n
    ensures d > m as real
  {
    assert d * p as real == n as real;
    RealProduct(m, p);
    if d < m as real { TimesLess(d, m as real, p as real); }
  }

  lemma QuotientIsShift(x: real, k: nat, d: real)
    requires d == x / Pow2(k) as real
    ensures IsShift(d, k, x)
  {}

  lemma NearestOfDouble(q: real, d: real)
    requires IsNearest(q, d) && IsDouble(d)
    ensures q == d
  {}

  /** Dividing a converted size by a power of two is exact. */
  lemma PowerOfTwoQuotient(q: real, x: real, a: nat, k: nat)
    requires k <= 52 && IsNearest(x, a as real) && IsNearest(q, x / Pow2(k) as real)
    ensures q == x / Pow2(k) as real
  {
    ConvertedIsWhole(x, a);
    QuotientIsShift(x, k, x / Pow2(k) as real);
    ShiftedIsDouble(x, k, x / Pow2(k) as real);
    NearestOfDouble(q, x / Pow2(k) as real);
  }

  /** For a power of two as divisor the ceiling of the rounded quotient is that of the converted size. */
  lemma PowerOfTwoCeiling(q: real, x: real, y: real, a: nat, k: nat, p: nat)
    requires k <= 52 && p == Pow2(k)
    requires IsNearest(x, a as real) && IsNearest(y, p as real) && y > 0.0 && IsNearest(q, x / y)
    ensures x.Floor >= 0 && Ceil(q) == CeilDiv(x.Floor, p)
  {
    assert y == p as real by {
      Pow2Monotone(k, 53);
      Pow53();
      SmallSizeExact(y, p);
    }
    PowerOfTwoQuotient(q, x, a, k);
    ConvertedIsWhole(x, a);
    CeilOfQuotient(x.Floor, p, q);
  }

  const CHUNK_SIZE := 0x1_0000
  const CHUNKS_IN_PRECISION := 0x20_0000_0000 // 2^37

  /** One byte more, and the size may be rounded down: 2^53 is a nearest double of 2^53 + 1, so that a file of that
      size is cut into 2^37 chunks of 64 KiB, and its last byte is in none. */
  lemma OneByteTooMany()
    ensures IsNearest(PRECISION as real, (PRECISION + 1) as real)
    ensures IsNearest(CHUNK_SIZE as real, CHUNK_SIZE as real)
    ensures IsNearest(CHUNKS_IN_PRECISION as real, PRECISION as real / CHUNK_SIZE as real)
    ensures Ceil(CHUNKS_IN_PRECISION as real) == CHUNKS_IN_PRECISION == CeilDiv(PRECISION + 1, CHUNK_SIZE) - 1
    ensures CHUNKS_IN_PRECISION * CHUNK_SIZE == PRECISION
  {
    IntegerIsDouble(PRECISION);
    IntegerIsDouble(CHUNK_SIZE);
    IntegerIsDouble(CHUNKS_IN_PRECISION);
    forall g: real | IsDouble(g)
      ensures Abs(PRECISION as real - (PRECISION + 1) as real) <= Abs(g - (PRECISION + 1) as real)
    {
      if g > PRECISION as real { DoublesBeyondAreEven(g); }
    }
  }
}
