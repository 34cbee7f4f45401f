/**
 The remainder of section 5.3.1 of IEEE 754-2008 (`ieee_remainder` in math.rs),
 in exact arithmetic: values are reals, with signed zeros, infinities and NaN.
 */
module Remainders {
  datatype Number = NaN | Infinite(negative: bool) | Finite(negative: bool, size: real)

  predicate Valid(x: Number) {
    x.Finite? ==> x.size >= 0.0
  }

  function Value(x: Number): real
    requires x.Finite?
  {
    if x.negative then -x.size else x.size
  }

  function Abs(x: real): (r: real)
    ensures r >= 0.0
  {
    if x < 0.0 then -x else x
  }

  /** `copysign`. */
  function WithSign(size: real, like: real): real {
    if like < 0.0 then -size else size
  }

  /** Division truncated toward zero. */
  function Truncated(x: real): int {
    if x < 0.0 then -(-x).Floor else x.Floor
  }

  /** The language's `%` on reals: what truncated division leaves, with the sign of x. */
  function Mod(x: real, d: real): real
    requires d > 0.0
  {
    x - Truncated(x / d) as real * d
  }

  /** n is a whole quotient that leaves r, nearest to x / d, and even when two are as near. */
  predicate IsQuotient(x: real, d: real, r: real, n: int) {
    && x - r == n as real * d
    && 2.0 * Abs(r) <= d
    && (2.0 * Abs(r) == d ==> n % 2 == 0)
  }

  ghost predicate IsRemainder(x: real, d: real, r: real) {
    exists n :: IsQuotient(x, d, r, n)
  }

  /** A double from a real: a zero takes the given sign. */
  function FromReal(r: real, zeroNegative: bool): Number {
    Finite(if r == 0.0 then zeroNegative else r < 0.0, Abs(r))
  }

  lemma TruncatedNear(q: real)
    ensures q >= 0.0 ==> 0.0 <= q - Truncated(q) as real < 1.0
    ensures q <= 0.0 ==> -1.0 < q - Truncated(q) as real <= 0.0
  {
  }

  lemma DivisionSign(x: real, d: real)
    requires d > 0.0
    ensures x / d * d == x && (x / d < 0.0 <==> x < 0.0)
  {
  }

  lemma Distribute(a: real, b: real, d: real)
    ensures (a - b) * d == a * d - b * d && (a + b) * d == a * d + b * d
  {
  }

  lemma TruncateLeaves(x: real, d: real)
    requires d > 0.0
    ensures Abs(Mod(x, d)) < d
    ensures x - Mod(x, d) == Truncated(x / d) as real * d
    ensures x >= 0.0 ==> Mod(x, d) >= 0.0
    ensures x <= 0.0 ==> Mod(x, d) <= 0.0
  {
    var q := x / d;
    DivisionSign(x, d);
    TruncatedNear(q);
    var t := Truncated(q) as real;
    Distribute(q, t, d);
    Scale(q - t, d, Mod(x, d));
  }

  lemma Scale(f: real, d: real, m: real)
    requires d > 0.0 && -1.0 < f < 1.0 && m == f * d
    ensures -d < m < d
    ensures f >= 0.0 ==> m >= 0.0
    ensures f <= 0.0 ==> m <= 0.0
  {
  }

  method IeeeRemainder(x: Number, y: Number) returns (result: Number)
    requires Valid(x) && Valid(y)
    ensures result.NaN? <==> x.NaN? || y.NaN? || x.Infinite? || (y.Finite? && y.size == 0.0)
    ensures x.Finite? && y.Infinite? ==> result == x
    ensures x.Finite? && y.Finite? && y.size != 0.0 ==>
      && result.Finite? && Valid(result)
      && IsRemainder(Value(x), y.size, Value(result))
      && (result.size == 0.0 ==> result.negative == x.negative)
  {
    if x.NaN? || y.NaN? || (y.Finite? && y.size == 0.0) || x.Infinite? {
      return NaN;
    }
    if y.Infinite? {
      return x;
    }
    var r, n := Reduce(Value(x), y.size);
    result := FromReal(r, x.negative);
  }

  /** The case of finite operands, `ay` being the divisor's absolute value. */
  method Reduce(x: real, ay: real) returns (r: real, ghost n: int)
    requires ay > 0.0
    ensures IsQuotient(x, ay, r, n)
  {
    r := Mod(x, ay);
    n := Truncated(x / ay);
    TruncateLeaves(x, ay);
    var half := ay * 0.5;
    if Abs(r) > half {
      Adjust(x, ay, r, n);
      n := Further(n, r);
      r := r - WithSign(ay, r);
    } else if Abs(r) == half {
      var odd := OddQuotient(x, ay, r, n);
      if odd {
        Adjust(x, ay, r, n);
        n := Further(n, r);
        r := r - WithSign(ay, r);
      }
    }
  }

  /** Whether the quotient that leaves r is odd, found from r alone. */
  method OddQuotient(x: real, ay: real, r: real, ghost n: int) returns (odd: bool)
    requires ay > 0.0 && x - r == n as real * ay
    ensures odd == (n % 2 == 1)
  {
    var q := (x - r) / ay;
    WholeQuotient(x, r, ay, n);
    ParityOfWhole(n);
    return Mod(q, 2.0) != 0.0;
  }

  /** The next quotient in the direction of r. */
  function Further(n: int, r: real): int {
    if r < 0.0 then n - 1 else n + 1
  }

  /** Moving to the next quotient turns a remainder past half the divisor into one within it. */
  lemma Adjust(x: real, d: real, r: real, n: int)
    requires d > 0.0 && x - r == n as real * d && Abs(r) < d && 2.0 * Abs(r) >= d
    ensures var t := r - WithSign(d, r);
      x - t == Further(n, r) as real * d && 2.0 * Abs(t) <= d && (2.0 * Abs(t) == d <==> 2.0 * Abs(r) == d)
  {
    Distribute(n as real, 1.0, d);
  }

  lemma WholeQuotient(x: real, r: real, d: real, n: int)
    requires d > 0.0 && x - r == n as real * d
    ensures (x - r) / d == n as real
  {
  }

  lemma ParityOfWhole(n: int)
    ensures Mod(n as real, 2.0) != 0.0 <==> n % 2 == 1
  {
    var h := n as real / 2.0;
    if n >= 0 {
      assert h.Floor == n / 2;
    } else {
      assert (-h).Floor == (-n) / 2;
    }
  }

  /** Two remainders at different quotients are exactly a divisor apart, on either side of a tie. */
  lemma ApartAtTie(d: real, r: real, s: real, k: int)
    requires d > 0.0 && k != 0 && s - r == k as real * d && 2.0 * Abs(r) <= d && 2.0 * Abs(s) <= d
    ensures 2.0 * Abs(r) == d && 2.0 * Abs(s) == d && (k == 1 || k == -1)
  {
    MultipleIsFar(k, d);
    if k != 1 && k != -1 {
      MultipleIsFarther(k, d);
    }
  }

  /** Such a remainder is unique, so the method's contract fixes its result. */
  lemma RemainderUnique(x: real, d: real, r: real, s: real)
    requires d > 0.0 && IsRemainder(x, d, r) && IsRemainder(x, d, s)
    ensures r == s
  {
    var n :| IsQuotient(x, d, r, n);
    var m :| IsQuotient(x, d, s, m);
    QuotientsAgree(x, d, r, s, n, m);
  }

  /** Quotients one apart at a tie would differ in parity. */
  lemma QuotientsAgree(x: real, d: real, r: real, s: real, n: int, m: int)
    requires d > 0.0 && IsQuotient(x, d, r, n) && IsQuotient(x, d, s, m)
    ensures n == m && r == s
  {
    SameDividend(x, d, r, s, n, m);
    if n != m {
      ApartAtTie(d, r, s, n - m);
      ParitiesDiffer(n, m);
    }
  }

  lemma ParitiesDiffer(n: int, m: int)
    requires n - m == 1 || n - m == -1
    ensures n % 2 != m % 2
  {
  }

  lemma SameDividend(x: real, d: real, r: real, s: real, n: int, m: int)
    requires x - r == n as real * d && x - s == m as real * d
    ensures s - r == (n - m) as real * d
  {
    Distribute(n as real, m as real, d);
    assert (n - m) as real == n as real - m as real;
  }

  lemma MultipleIsFar(k: int, d: real)
    requires k != 0 && d > 0.0
    ensures Abs(k as real * d) >= d
  {
    if k > 0 {
      assert k as real >= 1.0;
      assert k as real * d >= d;
    } else {
      assert -k as real >= 1.0;
      assert (-k) as real * d >= d;
    }
  }

  lemma MultipleIsFarther(k: int, d: real)
    requires (k > 1 || k < -1) && d > 0.0
    ensures Abs(k as real * d) > d
  {
    if k > 1 {
      MultipleIsFar(k - 1, d);
      assert k as real * d == (k - 1) as real * d + d;
    } else {
      MultipleIsFar(k + 1, d);
      assert k as real * d == (k + 1) as real * d - d;
    }
  }
}
