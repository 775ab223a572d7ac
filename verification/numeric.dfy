/** Numeric building blocks shared by the calculators and the storage model:
    floor and ceiling of a real (PHP `floor`/`ceil`, JavaScript `Math.floor`/`Math.ceil`),
    rounding to a column's decimal scale (how MySQL stores a value in an INT or
    DECIMAL(p, s) column), and the small arithmetic facts the other modules lean on. */
module Numeric {

  /** Largest integer not above x. */
  function Floor(x: real): (r: int)
    ensures r as real <= x < r as real + 1.0
  {
    x.Floor
  }

  /** Least integer not below x. */
  function Ceil(x: real): (r: int)
    ensures r as real - 1.0 < x <= r as real
  {
    -((-x).Floor)
  }

  /** An integer-valued real. */
  predicate IsWhole(x: real) {
    x.Floor as real == x
  }

  /** Round to the nearest integer, halves away from zero (MySQL's rule for exact values). */
  function RoundHalfAway(y: real): (r: int)
    ensures -0.5 <= r as real - y <= 0.5
    ensures y >= 0.0 ==> r >= 0
    ensures y <= 0.0 ==> r <= 0
  {
    if y >= 0.0 then Floor(y + 0.5) else -Floor(-y + 0.5)
  }

  /** The numeric column types of the schema: INT, DECIMAL(p, 2) and DECIMAL(p, 4). */
  datatype Column = IntColumn | Decimal2 | Decimal4

  /** How many units of the column's last digit make one. */
  function Factor(c: Column): real {
    match c
    case IntColumn => 1.0
    case Decimal2 => 100.0
    case Decimal4 => 10000.0
  }

  /** The value a column holds after x is stored in it: x rounded to the column's scale. */
  function Store(c: Column, x: real): real {
    RoundHalfAway(x * Factor(c)) as real / Factor(c)
  }

  /** Storing moves a value by at most half a unit of the column's last digit
      and never changes its sign. */
  lemma StoreError(c: Column, x: real)
    ensures -0.5 / Factor(c) <= Store(c, x) - x <= 0.5 / Factor(c)
    ensures x >= 0.0 ==> Store(c, x) >= 0.0
    ensures x <= 0.0 ==> Store(c, x) <= 0.0
  {
  }

  /** Rounding an integer-valued real leaves it unchanged. */
  lemma RoundHalfAwayWhole(y: real)
    requires IsWhole(y)
    ensures RoundHalfAway(y) as real == y
  {
    var n := y.Floor;
    if y >= 0.0 {
      FloorUnique(y + 0.5, n);
    } else {
      FloorUnique(-y + 0.5, -n);
    }
  }

  /** The floor is the only integer within one below x. */
  lemma FloorUnique(x: real, n: int)
    requires n as real <= x < n as real + 1.0
    ensures Floor(x) == n
  {
  }

  /** A whole quantity is stored unchanged in every column. */
  lemma StoreWhole(c: Column, x: real)
    requires IsWhole(x)
    ensures Store(c, x) == x
  {
    var n := x.Floor;
    match c
    case IntColumn =>
      RoundHalfAwayWhole(x);
    case Decimal2 =>
      FloorUnique(x * 100.0, 100 * n);
      RoundHalfAwayWhole(x * 100.0);
    case Decimal4 =>
      FloorUnique(x * 10000.0, 10000 * n);
      RoundHalfAwayWhole(x * 10000.0);
  }

  /** Storing an already-stored value changes nothing. */
  lemma StoreIdempotent(c: Column, x: real)
    ensures Store(c, Store(c, x)) == Store(c, x)
  {
    var f := Factor(c);
    var n := RoundHalfAway(x * f);
    StoredTimesFactor(c, n);
    FloorUnique(n as real, n);
    RoundHalfAwayWhole(n as real);
  }

  lemma StoredTimesFactor(c: Column, n: int)
    ensures (n as real / Factor(c)) * Factor(c) == n as real
  {
  }

  /** ceil(t / c) * c is the least multiple of c that is at least t when c > 0, and the
      greatest multiple of c that is at most t when c < 0. */
  lemma CeilDivBounds(t: real, c: real)
    requires c != 0.0
    ensures c > 0.0 ==> (Ceil(t / c) as real) * c >= t && (Ceil(t / c) as real - 1.0) * c < t
    ensures c < 0.0 ==> (Ceil(t / c) as real) * c <= t && (Ceil(t / c) as real - 1.0) * c > t
  {
    var k := Ceil(t / c) as real;
    var q := t / c;
    assert q * c == t;
    assert k - 1.0 < q <= k;
    if c > 0.0 {
      MulMono(q, k, c);
      MulMonoStrict(k - 1.0, q, c);
      assert (k - 1.0) * c < t;
    } else {
      ScaleCeilByNegative(k, q, c, t);
    }
  }

  /** Scaling k - 1 < q <= k by a negative s reverses both inequalities. */
  lemma ScaleCeilByNegative(k: real, q: real, s: real, a: real)
    requires s < 0.0 && q * s == a && k - 1.0 < q <= k
    ensures k * s <= a && (k - 1.0) * s > a
  {
    NegMul(q, s);
    NegMul(k, s);
    MulMono(q, k, -s);
    var j := k - 1.0;
    NegMul(j, s);
    MulMonoStrict(j, q, -s);
    assert -(j * s) < -a;
  }

  /** floor(a / s) * s is the greatest multiple of s that is at most a when s > 0, and the
      least multiple of s that is at least a when s < 0. */
  lemma FloorDivBounds(a: real, s: real)
    requires s != 0.0
    ensures s > 0.0 ==> (Floor(a / s) as real) * s <= a && (Floor(a / s) as real + 1.0) * s > a
    ensures s < 0.0 ==> (Floor(a / s) as real) * s >= a
    ensures s < 0.0 ==> (Floor(a / s) as real + 1.0) * s < a
  {
    var k := Floor(a / s) as real;
    var q := a / s;
    assert q * s == a;
    assert k <= q < k + 1.0;
    if s > 0.0 {
      MulMono(k, q, s);
      MulMonoStrict(q, k + 1.0, s);
      assert (k + 1.0) * s > a;
    } else {
      ScaleByNegative(k, q, s, a);
    }
  }

  /** Scaling k <= q < k + 1 by a negative s reverses both inequalities. */
  lemma ScaleByNegative(k: real, q: real, s: real, a: real)
    requires s < 0.0 && q * s == a && k <= q < k + 1.0
    ensures k * s >= a && (k + 1.0) * s < a
  {
    NegMul(k, s);
    NegMul(q, s);
    MulMono(k, q, -s);
    var j := k + 1.0;
    NegMul(j, s);
    MulMonoStrict(q, j, -s);
    assert -a < -(j * s);
  }

  lemma MulMono(x: real, y: real, c: real)
    requires c > 0.0 && x <= y
    ensures x * c <= y * c
  {
  }

  lemma MulMonoStrict(x: real, y: real, c: real)
    requires c > 0.0 && x < y
    ensures x * c < y * c
  {
  }

  lemma MulAntiStrict(x: real, y: real, c: real)
    requires c < 0.0 && x < y
    ensures x * c > y * c
  {
  }

  lemma NegMul(x: real, y: real)
    ensures x * -y == -(x * y)
  {
  }
}
