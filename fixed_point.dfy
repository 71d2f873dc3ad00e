/** The 16.16 signed fixed-point scalar (`FixedUnit`, the fpm library's
    `fixed_16_16`), modelled by its raw integer value: the number `raw / 2^16`.
    Raw values are unbounded here; the 32-bit range of the C++ type is not modelled.
    Multiplication and division follow the library's default rounding variant:
    the exact quotient is computed with one extra bit and rounded half away from zero. */
module FixedPoint {

  /** A raw fixed-point value. */
  type Fixed = int

  const One: Fixed := 0x1_0000
  const Half: Fixed := 0x8000
  /** `std::numeric_limits<FixedUnit>::epsilon()`: one raw unit. */
  const Epsilon: Fixed := 1

  /** `FixedUnit{ n }` for an integral `n`. */
  function FromInt(n: int): (r: Fixed)
    ensures r / One == n && r % One == 0
  {
    n * One
  }

  /** C++ integer division, which truncates toward zero. */
  function TDiv(a: int, b: int): (q: int)
    requires b != 0
    ensures a >= 0 && b > 0 ==> q == a / b
    ensures (q >= 0) == (a == 0 || (a > 0) == (b > 0)) || q == 0
  {
    if a >= 0 then (if b > 0 then a / b else -(a / -b))
    else (if b > 0 then -((-a) / b) else (-a) / (-b))
  }

  /** C++ `%`, the remainder that goes with `TDiv`. */
  function TMod(a: int, b: int): int
    requires b != 0
  {
    a - b * TDiv(a, b)
  }

  /** Halves a doubled quotient, rounding its last bit away from zero; the
      library writes this `v / 2 + v % 2` (see `RoundHalfIsQuotientPlusRemainder`). */
  function RoundHalf(v: int): int
  {
    if v >= 0 then (v + 1) / 2 else -((1 - v) / 2)
  }

  /** `x * y` of two fixed-point values: the product truncated to one extra
      bit, then rounded half away from zero, written here with a single sign
      test (`MulIsRoundedQuotient` shows it is `RoundHalf(TDiv(x * y, Half))`). */
  function Mul(x: Fixed, y: Fixed): Fixed
  {
    var p := x * y;
    if p >= 0 then (p / Half + 1) / 2 else -(((-p) / Half + 1) / 2)
  }

  /** `x / y` of two fixed-point values; the source's behaviour for `y == 0`
      is undefined (an integer division by zero), so callers must exclude it. */
  function Div(x: Fixed, y: Fixed): Fixed
    requires y != 0
  {
    RoundHalf(TDiv(x * One * 2, y))
  }

  /** `static_cast<integral>(x)`: the whole part, truncated toward zero. */
  function ToInt(x: Fixed): int
  {
    TDiv(x, One)
  }

  /** `fpm::floor`: the largest whole value not above `x`. */
  function Floor(x: Fixed): (r: Fixed)
    ensures r % One == 0 && r <= x < r + One
  {
    (x / One) * One
  }

  /** `fpm::ceil`: the smallest whole value not below `x`. */
  function Ceil(x: Fixed): (r: Fixed)
    ensures r % One == 0 && r - One < x <= r
  {
    -Floor(-x)
  }

  /** `fpm::abs`. */
  function Abs(x: Fixed): (r: Fixed)
    ensures r >= 0 && (r == x || r == -x)
  {
    if x >= 0 then x else -x
  }

  function Min(a: Fixed, b: Fixed): (r: Fixed)
    ensures r <= a && r <= b && (r == a || r == b)
  {
    if b < a then b else a
  }

  function Max(a: Fixed, b: Fixed): (r: Fixed)
    ensures r >= a && r >= b && (r == a || r == b)
  {
    if a < b then b else a
  }

  /** The transcendental functions of the fixed-point library, which this
      model leaves uninterpreted: every lemma holds for any choice of them. */
  datatype FixedMath = FixedMath(
    sin: Fixed -> Fixed,
    cos: Fixed -> Fixed,
    tan: Fixed -> Fixed,
    sqrt: Fixed -> Fixed,
    square: Fixed -> Fixed)

  // ---------------------------------------------------------------------
  // Exactness facts about the rounding arithmetic

  lemma MulLeMono(x: int, y: int, b: int)
    requires x <= y && b > 0
    ensures x * b <= y * b
  {
    var d := y - x;
    assert y * b == x * b + d * b;
    assert d * b >= 0;
  }

  lemma DivMultiple(k: int, b: int)
    requires b > 0
    ensures (k * b) / b == k && (k * b) % b == 0
  {
    var q, m := (k * b) / b, (k * b) % b;
    assert k * b == q * b + m && 0 <= m < b;
    if q < k {
      MulLeMono(q + 1, k, b);
    } else if q > k {
      MulLeMono(k + 1, q, b);
    }
  }

  /** A positive multiple of a positive divisor divides back exactly. */
  lemma MultipleOfPositive(m: int, n: int)
    requires m > 0 && n > 0
    ensures m * n > 0 && (m * n) / n == m
  {
    MulLeMono(1, m, n);
    DivMultiple(m, n);
  }

  /** `TDiv` of a non-zero multiple, one sign combination at a time. */
  lemma TDivExactNonZero(k: int, b: int)
    requires b != 0 && k != 0
    ensures TDiv(k * b, b) == k
  {
    var m, n := if k > 0 then k else -k, if b > 0 then b else -b;
    MultipleOfPositive(m, n);
    if k > 0 && b > 0 {
      assert k * b == m * n;
    } else if k < 0 && b > 0 {
      assert k * b == -(m * n);
    } else if k > 0 {
      assert k * b == -(m * n);
    } else {
      assert k * b == m * n;
    }
  }

  lemma TDivExact(k: int, b: int)
    requires b != 0
    ensures TDiv(k * b, b) == k && TMod(k * b, b) == 0
  {
    if k == 0 {
      assert k * b == 0;
    } else {
      TDivExactNonZero(k, b);
    }
  }

  /** The library's two steps: truncate to one extra bit, then round it off. */
  lemma MulIsRoundedQuotient(x: Fixed, y: Fixed)
    ensures Mul(x, y) == RoundHalf(TDiv(x * y, Half))
  {
  }

  lemma RoundHalfIsQuotientPlusRemainder(v: int)
    ensures RoundHalf(v) == TDiv(v, 2) + TMod(v, 2)
  {
  }

  lemma RoundHalfEven(n: int)
    ensures RoundHalf(2 * n) == n
  {
    TDivExact(n, 2);
  }

  /** Multiplying by a whole value is exact: `n * y` for `FixedUnit{ n }`. */
  lemma MulWholeLeft(n: int, y: Fixed)
    ensures Mul(FromInt(n), y) == n * y
  {
    var p := n * y;
    assert FromInt(n) * y == p * One;
    assert p * One == (2 * p) * Half;
    TDivExact(2 * p, Half);
    RoundHalfEven(p);
  }

  /** Adding `k` whole units to the right factor adds `k` times the whole left factor. */
  lemma MulWholeShift(n: int, u: Fixed, k: int)
    ensures Mul(FromInt(n), u + k * One) == Mul(FromInt(n), u) + k * FromInt(n)
  {
    MulWholeLeft(n, u + k * One);
    MulWholeLeft(n, u);
    assert n * (u + k * One) == n * u + k * (n * One);
  }

  lemma MulWholeRight(x: Fixed, n: int)
    ensures Mul(x, FromInt(n)) == n * x
  {
    assert x * FromInt(n) == FromInt(n) * x;
    MulWholeLeft(n, x);
  }

  lemma MulOne(x: Fixed)
    ensures Mul(One, x) == x && Mul(x, One) == x
  {
    MulWholeLeft(1, x);
    MulWholeRight(x, 1);
  }

  lemma MulZero(x: Fixed)
    ensures Mul(0, x) == 0 && Mul(x, 0) == 0
  {
  }

  lemma MulCommutes(x: Fixed, y: Fixed)
    ensures Mul(x, y) == Mul(y, x)
  {
    assert x * y == y * x;
  }

  /** The product of two whole values is the whole product. */
  lemma MulWholes(a: int, b: int)
    ensures Mul(FromInt(a), FromInt(b)) == FromInt(a * b)
  {
    MulWholeLeft(a, FromInt(b));
    assert a * FromInt(b) == FromInt(a * b);
  }

  /** Dividing a value by itself gives exactly one, and by its negation minus one. */
  lemma DivSelf(w: Fixed)
    requires w != 0
    ensures Div(w, w) == One && Div(-w, w) == -One && Div(0, w) == 0
  {
    assert w * One * 2 == (2 * One) * w;
    TDivExact(2 * One, w);
    RoundHalfEven(One);
    assert -w * One * 2 == (-2 * One) * w;
    TDivExact(-2 * One, w);
    RoundHalfEven(-One);
  }

  /** `Div(x, One)` is `x`. */
  lemma DivOne(x: Fixed)
    ensures Div(x, One) == x
  {
    assert x * One * 2 == (2 * x) * One;
    TDivExact(2 * x, One);
    RoundHalfEven(x);
  }
}
