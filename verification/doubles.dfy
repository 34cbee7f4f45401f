/**
 Doubles as bit patterns: `math_nextafter` and `ilogb` (math.rs), under the
 binary64 encoding of section 3.4 of IEEE 754-2008.

 A value is measured in units of the smallest subnormal, 2 to the -1074, so every
 finite double is a whole number of units; infinity measures as 2 to the 1024
 would, above every finite double.
 */
module Doubles {
  import opened Arith

  type Bits = x: nat | x < 0x1_0000_0000_0000_0000

  const SIGN_BIT: nat := 0x8000_0000_0000_0000
  const FRACTION_SPAN: nat := 0x10_0000_0000_0000
  const INFINITY: nat := 0x7ff0_0000_0000_0000
  const NAN: Bits := 0x7ff8_0000_0000_0000

  function Pow2(n: nat): (r: nat)
    ensures r >= 1
  {
    if n == 0 then 1 else 2 * Pow2(n - 1)
  }

  predicate Negative(x: Bits) {
    x >= SIGN_BIT
  }

  function Magnitude(x: Bits): nat {
    if Negative(x) then x - SIGN_BIT else x
  }

  predicate IsNan(x: Bits) {
    Magnitude(x) > INFINITY
  }

  predicate IsFinite(x: Bits) {
    Magnitude(x) < INFINITY
  }

  function Exponent(magnitude: nat): nat {
    magnitude / FRACTION_SPAN
  }

  function Fraction(magnitude: nat): nat {
    magnitude % FRACTION_SPAN
  }

  /** Absolute value in units of 2 to the -1074. */
  function Units(magnitude: nat): nat {
    var e, f := Exponent(magnitude), Fraction(magnitude);
    if e == 0 then f else (FRACTION_SPAN + f) * Pow2(e - 1)
  }

  function Value(x: Bits): int {
    var units: int := Units(Magnitude(x));
    if Negative(x) then -units else units
  }

  function CopySign(magnitude: nat, y: Bits): Bits
    requires magnitude < SIGN_BIT
  {
    if Negative(y) then SIGN_BIT + magnitude else magnitude
  }

  function NextAfter(x: Bits, y: Bits): Bits {
    if IsNan(x) || IsNan(y) then NAN
    else if Value(x) == Value(y) then y
    else if Value(x) == 0 then CopySign(1, y)
    else
      StepStaysInBits(x, y);
      if (Value(y) > Value(x)) == (Value(x) > 0) then x + 1 else x - 1
  }

  /**
   A pattern is a sign bit, eleven bits of exponent and fifty-two of fraction, and
   by these a NaN, infinite or finite.
   */
  lemma PatternExactly(x: Bits)
    ensures x == (if Negative(x) then 0x8000_0000_0000_0000 else 0)
                 + Exponent(Magnitude(x)) * 0x10_0000_0000_0000 + Fraction(Magnitude(x))
    ensures Exponent(Magnitude(x)) < 2048 && Fraction(Magnitude(x)) < 0x10_0000_0000_0000
    ensures IsNan(x) <==> Exponent(Magnitude(x)) == 2047 && Fraction(Magnitude(x)) != 0
    ensures IsFinite(x) <==> Exponent(Magnitude(x)) < 2047
  {
    DivMod(Magnitude(x), FRACTION_SPAN);
  }

  // --- Order of the patterns ---

  lemma {:induction false} Pow2Mono(a: nat, b: nat)
    requires a <= b
    ensures Pow2(a) <= Pow2(b)
    decreases b
  {
    if a < b {
      Pow2Mono(a, b - 1);
    }
  }

  lemma MulMono(a: nat, b: nat, k: nat)
    requires a < b && k >= 1
    ensures a * k < b * k
  {
    MulLess(a, b, k);
  }

  /** Within one exponent the units lie in one binade. */
  lemma UnitsInBinade(m: nat)
    ensures Exponent(m) > 0 ==> FRACTION_SPAN * Pow2(Exponent(m) - 1) <= Units(m) < FRACTION_SPAN * Pow2(Exponent(m))
    ensures Exponent(m) == 0 ==> Units(m) == m < FRACTION_SPAN
  {
    var e, f := Exponent(m), Fraction(m);
    if e > 0 {
      var k := Pow2(e - 1);
      MulMono(f, FRACTION_SPAN, k);
      assert (FRACTION_SPAN + f) * k == FRACTION_SPAN * k + f * k;
      MulGap(k, f);
    }
  }

  /** Larger magnitudes are larger values. */
  lemma UnitsMono(a: nat, b: nat)
    requires a < b
    ensures Units(a) < Units(b)
  {
    var ea, eb := Exponent(a), Exponent(b);
    DivMod(a, FRACTION_SPAN);
    DivMod(b, FRACTION_SPAN);
    if ea == eb {
      if ea > 0 {
        MulMono(FRACTION_SPAN + Fraction(a), FRACTION_SPAN + Fraction(b), Pow2(ea - 1));
      }
    } else {
      UnitsInBinade(a);
      UnitsInBinade(b);
      Pow2Mono(ea, eb - 1);
      assert FRACTION_SPAN * Pow2(ea) <= FRACTION_SPAN * Pow2(eb - 1);
    }
  }

  lemma UnitsOrder(a: nat, b: nat)
    ensures Units(a) < Units(b) <==> a < b
    ensures Units(a) == Units(b) <==> a == b
  {
    if a < b {
      UnitsMono(a, b);
    } else if b < a {
      UnitsMono(b, a);
    }
  }

  lemma UnitsOfSmall()
    ensures Units(0) == 0 && Units(1) == 1
  {
  }

  /** The value's sign is the sign bit, but for the two zeros. */
  lemma ValueSign(x: Bits)
    ensures Value(x) == 0 <==> Magnitude(x) == 0
    ensures Value(x) > 0 <==> !Negative(x) && Magnitude(x) > 0
  {
    UnitsOfSmall();
    UnitsOrder(0, Magnitude(x));
  }

  lemma StepStaysInBits(x: Bits, y: Bits)
    requires !IsNan(x) && !IsNan(y) && Value(x) != Value(y) && Value(x) != 0
    ensures Magnitude(x) > 0
    ensures (Value(y) > Value(x)) == (Value(x) > 0) ==> Magnitude(x) < INFINITY
  {
    ValueSign(x);
    ValueSign(y);
    UnitsOrder(Magnitude(x), Magnitude(y));
  }

  /** One double is strictly nearer to y than the other, in y's direction or at it. */
  predicate Toward(x: Bits, r: Bits, y: Bits) {
    Value(x) < Value(r) <= Value(y) || Value(y) <= Value(r) < Value(x)
  }

  predicate Between(d: Bits, a: Bits, b: Bits) {
    Value(a) < Value(d) < Value(b) || Value(b) < Value(d) < Value(a)
  }

  /** The step away from zero or back to it, on magnitudes. */
  lemma Adjacent(a: Bits, b: Bits, d: Bits)
    requires Negative(a) == Negative(b) && Magnitude(b) == Magnitude(a) + 1
    ensures !Between(d, a, b)
  {
    UnitsOrder(Magnitude(a), Magnitude(d));
    UnitsOrder(Magnitude(d), Magnitude(b));
    ValueSign(d);
    ValueSign(a);
  }

  lemma NextMagnitude(x: Bits, y: Bits)
    requires !IsNan(x) && !IsNan(y) && Value(x) != Value(y) && Value(x) != 0
    ensures var r := NextAfter(x, y);
      && Negative(r) == Negative(x)
      && (Magnitude(r) == Magnitude(x) + 1 || Magnitude(x) == Magnitude(r) + 1)
      && !IsNan(r) && Toward(x, r, y)
  {
    StepStaysInBits(x, y);
    ValueSign(x);
    ValueSign(y);
    var r := NextAfter(x, y);
    UnitsOrder(Magnitude(x), Magnitude(r));
    UnitsOrder(Magnitude(r), Magnitude(y));
    UnitsOrder(Magnitude(x), Magnitude(y));
    ValueSign(r);
  }

  /** From any double towards any different one: the very next double, with none in between. */
  lemma NextAfterIsNext(x: Bits, y: Bits)
    requires !IsNan(x) && !IsNan(y) && Value(x) != Value(y)
    ensures !IsNan(NextAfter(x, y)) && Toward(x, NextAfter(x, y), y)
    ensures forall d: Bits :: !Between(d, x, NextAfter(x, y))
  {
    var r := NextAfter(x, y);
    if Value(x) == 0 {
      UnitsOfSmall();
      ValueSign(x);
      ValueSign(y);
      ValueSign(r);
      UnitsOrder(1, Magnitude(y));
    } else {
      NextMagnitude(x, y);
      forall d: Bits ensures !Between(d, x, r) {
        if Magnitude(r) == Magnitude(x) + 1 {
          Adjacent(x, r, d);
        } else {
          Adjacent(r, x, d);
        }
      }
    }
  }

  /** Stepping back again returns to the same value. */
  lemma StepBack(x: Bits, y: Bits)
    requires !IsNan(x) && !IsNan(y) && Value(x) != Value(y)
    ensures Value(NextAfter(NextAfter(x, y), x)) == Value(x)
  {
    var r := NextAfter(x, y);
    NextAfterIsNext(x, y);
    NextAfterIsNext(r, x);
    assert !Between(NextAfter(r, x), x, r);
  }

  /** A NaN on either side gives NaN; equal values give the second. */
  lemma NextAfterOtherwise(x: Bits, y: Bits)
    ensures IsNan(NextAfter(x, y)) <==> IsNan(x) || IsNan(y)
    ensures !IsNan(x) && !IsNan(y) && Value(x) == Value(y) ==> NextAfter(x, y) == y
  {
    if !IsNan(x) && !IsNan(y) && Value(x) != Value(y) {
      NextAfterIsNext(x, y);
    }
  }

  // --- The binary exponent ---

  /** The index of the highest set bit. */
  function HighestBit(x: nat): (h: nat)
    ensures x > 0 ==> Pow2(h) <= x < Pow2(h + 1)
  {
    if x < 2 then 0 else 1 + HighestBit(x / 2)
  }

  /** Zero bits above the highest set one in a 64-bit word. */
  function LeadingZeros(x: Bits): int {
    if x == 0 then 64 else 63 - HighestBit(x)
  }

  lemma {:induction false} Pow2Add(a: nat, b: nat)
    ensures Pow2(a + b) == Pow2(a) * Pow2(b)
    decreases b
  {
    if b > 0 {
      Pow2Add(a, b - 1);
    }
  }

  lemma FractionIsPow2()
    ensures Pow2(52) == FRACTION_SPAN
  {
    assert Pow2(4) == 16;
    Pow2Add(4, 4);
    assert Pow2(8) == 256;
    Pow2Add(8, 8);
    assert Pow2(16) == 0x1_0000;
    Pow2Add(16, 16);
    assert Pow2(32) == 0x1_0000_0000;
    Pow2Add(32, 16);
    Pow2Add(48, 4);
  }

  /** `i32`'s largest value, and 0x80000001 read as one. */
  const MAX_INT: int := 0x7fff_ffff
  const ILOGB_ZERO: int := -0x7fff_ffff

  function Ilogb(x: Bits): int {
    if Value(x) == 0 then ILOGB_ZERO
    else if !IsFinite(x) then MAX_INT
    else
      var bits := Magnitude(x);
      var exp := Exponent(bits) % 2048;
      if exp == 0 then -1074 + 63 - LeadingZeros(Fraction(bits)) else exp - 1023
  }

  lemma BinadeIsPow2(e: nat)
    requires e > 0
    ensures FRACTION_SPAN * Pow2(e - 1) == Pow2(e + 51) && FRACTION_SPAN * Pow2(e) == Pow2(e + 52)
  {
    FractionIsPow2();
    Pow2Add(52, e - 1);
    Pow2Add(52, e);
  }

  lemma NormalBounds(m: nat)
    requires m < INFINITY && Exponent(m) > 0
    ensures Exponent(m) < 2047
    ensures Pow2(Exponent(m) + 51) <= Units(m) < Pow2(Exponent(m) + 52)
  {
    UnitsInBinade(m);
    BinadeIsPow2(Exponent(m));
  }

  lemma IlogbBounds(x: Bits)
    requires IsFinite(x) && Value(x) != 0
    ensures Ilogb(x) >= -1074
    ensures Pow2(Ilogb(x) + 1074) <= Units(Magnitude(x)) < Pow2(Ilogb(x) + 1075)
  {
    var m := Magnitude(x);
    ValueSign(x);
    if Exponent(m) > 0 {
      NormalBounds(m);
      assert Ilogb(x) == Exponent(m) - 1023;
    } else {
      DivMod(m, FRACTION_SPAN);
      assert Ilogb(x) == HighestBit(m) - 1074;
    }
  }

  /** The exponent e with 2^e <= |x| < 2^(e+1), subnormals included, and no other. */
  lemma IlogbExactly(x: Bits, e: int)
    requires IsFinite(x) && Value(x) != 0 && e >= -1074
    ensures Ilogb(x) == e <==> Pow2(e + 1074) <= Units(Magnitude(x)) < Pow2(e + 1075)
  {
    IlogbBounds(x);
    if e < Ilogb(x) {
      Pow2Mono(e + 1075, Ilogb(x) + 1074);
    } else if Ilogb(x) < e {
      Pow2Mono(Ilogb(x) + 1075, e + 1074);
    }
  }

  /** The special results are for zero, and for infinities and NaNs, only. */
  lemma IlogbSpecial(x: Bits)
    ensures Ilogb(x) == MAX_INT <==> !IsFinite(x)
    ensures Ilogb(x) == ILOGB_ZERO <==> Value(x) == 0
    ensures IsFinite(x) && Value(x) != 0 ==> -1074 <= Ilogb(x) <= 1023
  {
    ValueSign(x);
    if IsFinite(x) && Value(x) != 0 {
      IlogbBounds(x);
      FractionIsPow2();
      UnitsInBinade(Magnitude(x));
      if Exponent(Magnitude(x)) == 0 && Ilogb(x) >= -1022 {
        Pow2Mono(52, Ilogb(x) + 1074);
      }
    }
  }
}
