/**
 * Physical values: a 16-bit number times a power of ten. Encoding of an integer, which scales
 * down by truncating division, and of a real number with decimal places, which scales up; and
 * decoding. `Real` numbers stand for floating-point numbers, so rounding is not modelled.
 */
module PhysicalValues {
  import opened Arithmetic
  import opened Durations

  const INT16_MAX := 32767
  const INT16_MIN := -32768
  const MULTIPLIER_MIN := -3
  const MULTIPLIER_MAX := 3

  datatype Value = Value(multiplier: int, unit: nat, value: int)

  function Power(k: nat): (p: int)
    ensures p >= 1
  {
    if k == 0 then 1 else 10 * Power(k - 1)
  }

  predicate Fits(v: int) {
    INT16_MIN <= v <= INT16_MAX
  }

  /** The scaled value after dividing by ten `k` times. */
  function Scaled(v: int, k: nat): int {
    Quotient(v, Power(k))
  }

  lemma DivTwice(a: nat, b: nat)
    requires b >= 1
    ensures a / b / 10 == a / (10 * b)
  {
    var q, r := a / b, a % b;
    var t, s := q / 10, q % 10;
    Apart(s, 10, b);
    assert s * b >= 0;
    Regroup(a, b, q, r, t, s);
    UniqueQuotient(a, 10 * b, t, s * b + r);
  }

  lemma Regroup(a: int, b: int, q: int, r: int, t: int, s: int)
    requires a == q * b + r && q == 10 * t + s
    ensures a == t * (10 * b) + (s * b + r)
  {
  }

  lemma QuotientOfNegative(w: nat)
    ensures Quotient(0 - w, 10) == -(w / 10)
  {
  }

  lemma QuotientTwice(v: int, p: nat)
    requires p >= 1
    ensures Quotient(Quotient(v, p), 10) == Quotient(v, 10 * p)
  {
    var w: nat := if v >= 0 then v else -v;
    DivIsNat(w, p);
    DivTwice(w, p);
    QuotientOfNegative(w / p);
  }

  /** Dividing by ten once more is dividing by the next power. */
  lemma ScaledOnce(v: int, k: nat)
    ensures Quotient(Scaled(v, k), 10) == Scaled(v, k + 1)
  {
    QuotientTwice(v, Power(k));
  }

  /** Truncating division stays within one unit, and toward zero. */
  lemma ScaledError(v: int, k: nat)
    ensures -Power(k) < v - Scaled(v, k) * Power(k) < Power(k)
  {
    var p := Power(k);
    assert v >= 0 ==> v == v / p * p + v % p;
    assert v < 0 ==> -v == -v / p * p + -v % p;
  }

  /** The multiplier that an integer needs: enough to fit, and no smaller one is. */
  predicate IsLeast(v: int, k: nat) {
    Fits(Scaled(v, k)) && forall j: nat | j < k :: !Fits(Scaled(v, j))
  }

  /** Whether multiplier 3 is too small, as a condition on the value itself. */
  predicate Representable(v: int) {
    -32_768_999 <= v <= 32_767_999
  }

  lemma RepresentableMeansFits(v: int)
    ensures Representable(v) <==> Fits(Scaled(v, 3))
  {
    assert Power(3) == 1000 by {
      assert Power(1) == 10 && Power(2) == 100;
    }
  }

  lemma {:induction false} FitsForGood(v: int, k: nat, l: nat)
    requires Fits(Scaled(v, k)) && k <= l
    ensures Fits(Scaled(v, l))
  {
    if k < l {
      FitsForGood(v, k, l - 1);
      ScaledOnce(v, l - 1);
    }
  }

  /** A value that had to be scaled keeps at least four significant digits. */
  lemma ScaledIsLarge(v: int, k: nat)
    requires k > 0 && IsLeast(v, k)
    ensures Scaled(v, k) >= 3276 || Scaled(v, k) <= -3276
  {
    ScaledOnce(v, k - 1);
    assert !Fits(Scaled(v, k - 1));
  }

  // ---------------------------------------------------------------------------
  // Real numbers
  // ---------------------------------------------------------------------------

  function Truncate(r: real): int {
    if r >= 0.0 then r.Floor else -(-r).Floor
  }

  function RealPower(k: nat): (p: real)
    ensures p >= 1.0
  {
    if k == 0 then 1.0 else 10.0 * RealPower(k - 1)
  }

  /** The number that a physical value denotes. */
  function CalcPhysicalValue(value: int, multiplier: int): real {
    if multiplier >= 0 then value as real * RealPower(multiplier) else value as real / RealPower(-multiplier)
  }

  /** One step of the last digit of a physical value. */
  function UnitOf(multiplier: int): real {
    CalcPhysicalValue(1, multiplier)
  }

  function Distance(a: real, b: real): real {
    if a < b then b - a else a - b
  }

  lemma TruncateError(r: real)
    ensures Distance(Truncate(r) as real, r) < 1.0
  {
  }

  /** A number multiplied by ten `k` times. */
  function Shifted(number: real, k: nat): real {
    if k == 0 then number else Shifted(number, k - 1) * 10.0
  }

  lemma {:induction false} ShiftedIsScaled(number: real, k: nat)
    ensures Shifted(number, k) == number * RealPower(k)
  {
    if k > 0 {
      ShiftedIsScaled(number, k - 1);
      Regrouped(number, RealPower(k - 1));
    }
  }

  lemma Regrouped(a: real, b: real)
    ensures a * b * 10.0 == a * (10.0 * b)
  {
  }

  lemma ZeroFactor(z: real, p: real)
    requires z * p == 0.0 && p >= 1.0
    ensures z == 0.0
  {
  }

  lemma DifferenceOfQuotient(n: real, v: real, p: real)
    requires p >= 1.0
    ensures n / p - v == (n - v * p) / p
  {
    var x, y := n / p, (n - v * p) / p;
    assert x * p == n && y * p == n - v * p;
    assert (x - v - y) * p == x * p - v * p - y * p;
    ZeroFactor(x - v - y, p);
  }

  lemma PositiveFactor(z: real, p: real)
    requires z * p > 0.0 && p >= 1.0
    ensures z > 0.0
  {
  }

  lemma SmallerQuotient(a: real, b: real, p: real)
    requires a < b && p >= 1.0
    ensures a / p < b / p
  {
    var x, y := a / p, b / p;
    assert x * p == a && y * p == b;
    assert (y - x) * p == y * p - x * p;
    PositiveFactor(y - x, p);
  }

  lemma QuotientBounds(m: real, number: real, p: real)
    requires p >= 1.0 && -1.0 < m - number * p < 1.0
    ensures -1.0 / p < m / p - number < 1.0 / p
  {
    DifferenceOfQuotient(m, number, p);
    SmallerQuotient(m - number * p, 1.0, p);
    SmallerQuotient(-1.0, m - number * p, p);
  }

  lemma WithinUnit(m: real, number: real, p: real)
    requires p >= 1.0 && -1.0 < m - number * p < 1.0
    ensures Distance(m / p, number) < 1.0 / p
  {
    QuotientBounds(m, number, p);
    var low, middle, high := -1.0 / p, m / p - number, 1.0 / p;
    assert low == -high;
  }

  lemma Near(m: real, number: real, k: nat)
    requires Distance(m, Shifted(number, k)) < 1.0
    ensures -1.0 < m - number * RealPower(k) < 1.0
  {
    ShiftedIsScaled(number, k);
  }

  lemma CalcDividesBy(n: int, k: nat)
    ensures CalcPhysicalValue(n, 0 - k) == n as real / RealPower(k)
    ensures UnitOf(0 - k) == 1.0 / RealPower(k)
  {
  }

  /** What is less than one off after scaling up is less than one unit off before. */
  lemma ScalingBack(n: int, number: real, k: nat)
    requires Distance(n as real, Shifted(number, k)) < 1.0
    ensures Distance(CalcPhysicalValue(n, 0 - k), number) < UnitOf(0 - k)
  {
    Near(n as real, number, k);
    WithinUnit(n as real, number, RealPower(k));
    CalcDividesBy(n, k);
  }

  /** An 8-bit counter wraps around. */
  function Wrap8(n: int): (w: int)
    ensures -128 <= w <= 127
    ensures -128 <= n <= 127 ==> w == n
  {
    (n + 128) % 256 - 128
  }

  /** The number can still be scaled up: ten times it lies strictly inside the 16-bit range. */
  predicate CanScale(v: real) {
    INT16_MIN < Truncate(v * 10.0) < INT16_MAX
  }

  /** Conversion of a real number to 16 bits; out of range, the result is any 16-bit number. */
  function ToInt16(r: real, garbage: int): int {
    if Fits(Truncate(r)) then Truncate(r) else garbage
  }

  // ---------------------------------------------------------------------------
  // Encoding
  // ---------------------------------------------------------------------------

  /** The number of places used: all that are asked for, or as many as the number can be scaled up by. */
  ghost predicate IsPrecision(number: real, decimalPlaces: nat, k: nat) {
    && k <= decimalPlaces
    && (forall j: nat | j < k :: CanScale(Shifted(number, j)))
    && (k == decimalPlaces || !CanScale(Shifted(number, k)))
  }

  /** What `PopulateFloat` leaves when the integer version accepts the number. */
  ghost predicate Encodes(number: real, decimalPlaces: nat, garbage: int, v: Value) {
    if Fits(Truncate(number)) then
      exists k: nat ::
        IsPrecision(number, decimalPlaces, k) && v.multiplier == Wrap8(0 - k) && v.value == Truncate(Shifted(number, k))
    else v.multiplier > 0 && IsLeast(Truncate(number), v.multiplier) && v.value == garbage
  }

  class PhysicalValue {
    var multiplier: int
    var unit: nat
    var value: int

    function V(): Value
      reads this
    {
      Value(multiplier, unit, value)
    }

    constructor (unit: nat)
      ensures V() == Value(0, unit, 0)
    {
      multiplier, this.unit, value := 0, unit, 0;
    }

    /**
     * Succeeds exactly if multiplier 3 is enough, and then uses the least multiplier; otherwise
     * restores the value.
     */
    method Populate(number: int, newUnit: nat) returns (ok: bool)
      modifies this
      ensures ok <==> Representable(number)
      ensures !ok ==> V() == old(V())
      ensures ok ==> unit == newUnit && 0 <= multiplier <= MULTIPLIER_MAX
                     && IsLeast(number, multiplier) && value == Scaled(number, multiplier)
    {
      var restore := V();
      unit, multiplier := newUnit, 0;
      var v := number;
      assert Power(0) == 1;
      while v > INT16_MAX || v < INT16_MIN
        invariant multiplier >= 0 && unit == newUnit
        invariant v == Scaled(number, multiplier)
        invariant forall j: nat | j < multiplier :: !Fits(Scaled(number, j))
        decreases if v >= 0 then v else -v
      {
        ScaledOnce(number, multiplier);
        multiplier := multiplier + 1;
        v := Quotient(v, 10);
      }
      RepresentableMeansFits(number);
      if multiplier < MULTIPLIER_MIN || multiplier > MULTIPLIER_MAX {
        multiplier, unit, value := restore.multiplier, restore.unit, restore.value;
        return false;
      }
      FitsForGood(number, multiplier, 3);
      value := v;
      return true;
    }

    /**
     * Encodes a number with up to `decimalPlaces` places. If its integer part fits 16 bits, the
     * result is exact to less than one unit, and uses as many of the places as fit; what happens
     * otherwise depends on an out-of-range conversion, whose result is `garbage`.
     */
    method PopulateFloat(number: real, decimalPlaces: nat, newUnit: nat, garbage: int)
      requires decimalPlaces <= 255
      modifies this
      ensures !Representable(Truncate(number)) ==> V() == old(V())
      ensures Representable(Truncate(number)) ==> unit == newUnit && Encodes(number, decimalPlaces, garbage, V())
    {
      var ok := Populate(Truncate(number), newUnit);
      if !ok {
        assert !Fits(Truncate(number));
        return;
      }
      var v := number;
      assert Scaled(Truncate(number), 0) == Truncate(number);
      if multiplier == 0 {
        ghost var k: nat := 0;
        for idx := 0 to decimalPlaces
          invariant k <= idx && unit == newUnit && multiplier == Wrap8(0 - k) && v == Shifted(number, k)
          invariant forall j: nat | j < k :: CanScale(Shifted(number, j))
          invariant k == idx || !CanScale(v)
          invariant Fits(Truncate(v))
        {
          if Truncate(v * 10.0) < INT16_MAX && Truncate(v * 10.0) > INT16_MIN {
            multiplier := Wrap8(multiplier - 1);
            v := v * 10.0;
            k := k + 1;
          }
        }
        assert IsPrecision(number, decimalPlaces, k);
      } else {
        assert !Fits(Scaled(Truncate(number), 0));
      }
      value := ToInt16(v, garbage);
    }
  }

  // ---------------------------------------------------------------------------
  // Round trip
  // ---------------------------------------------------------------------------

  /** The encoded number decodes to within one unit of the original. */
  predicate RoundTrips(number: real, v: Value) {
    Distance(CalcPhysicalValue(v.value, v.multiplier), number) < UnitOf(v.multiplier)
  }

  /** Scaling an integer down and decoding it gives the integer back to within one unit. */
  lemma IntegerRoundTrip(number: int, k: nat)
    ensures Distance(CalcPhysicalValue(Scaled(number, k), k), number as real) < UnitOf(k)
  {
    ScaledError(number, k);
    PowersAgree(k);
    RealProduct(Scaled(number, k), Power(k));
  }

  lemma {:induction false} PowersAgree(k: nat)
    ensures RealPower(k) == Power(k) as real
  {
    if k > 0 {
      PowersAgree(k - 1);
    }
  }

  lemma RealProduct(a: int, b: int)
    ensures (a * b) as real == a as real * b as real
  {
  }

  // The multiplier is an 8-bit counter, so more than 128 places used leave it positive.

  lemma {:induction false} ShiftedGrows(number: real, j: nat, k: nat)
    requires j <= k
    ensures number >= 0.0 ==> 0.0 <= Shifted(number, j) <= Shifted(number, k)
    ensures number <= 0.0 ==> Shifted(number, k) <= Shifted(number, j) <= 0.0
  {
    if j < k {
      ShiftedGrows(number, j, k - 1);
    } else if k > 0 {
      ShiftedGrows(number, j - 1, k - 1);
    }
  }

  lemma CanScaleBefore(number: real, j: nat, k: nat)
    requires j <= k && CanScale(Shifted(number, k))
    ensures CanScale(Shifted(number, j))
  {
    ShiftedGrows(number, j, k);
  }

  /** More than 128 places are used: those many are asked for, and 128 of them leave room for another. */
  predicate UsesManyPlaces(number: real, decimalPlaces: nat) {
    decimalPlaces > 128 && CanScale(Shifted(number, 128))
  }

  lemma PrecisionOfMany(number: real, decimalPlaces: nat, k: nat)
    requires IsPrecision(number, decimalPlaces, k)
    ensures k > 128 <==> UsesManyPlaces(number, decimalPlaces)
  {
    if k <= 128 && UsesManyPlaces(number, decimalPlaces) {
      CanScaleBefore(number, k, 128);
      assert false;
    }
  }

  lemma {:induction false} PrecisionExists(number: real, decimalPlaces: nat) returns (k: nat)
    ensures IsPrecision(number, decimalPlaces, k)
  {
    if decimalPlaces == 0 {
      k := 0;
    } else {
      k := PrecisionExists(number, decimalPlaces - 1);
      if CanScale(Shifted(number, k)) {
        k := decimalPlaces;
      }
    }
  }

  lemma EncodingExists(number: real, decimalPlaces: nat) returns (v: Value)
    requires Fits(Truncate(number))
    ensures Encodes(number, decimalPlaces, 0, v)
  {
    var k := PrecisionExists(number, decimalPlaces);
    var multiplier: int := k;
    multiplier := Wrap8(0 - multiplier);
    v := Value(multiplier, 0, Truncate(Shifted(number, k)));
  }

  predicate IsBelowTwo(r: real) {
    -2.0 < r < 2.0
  }

  /** Places that could not be used do not matter, because what was not scaled up is far above two. */
  lemma BelowTwoAtEither(number: real, decimalPlaces: nat, k: nat)
    requires IsPrecision(number, decimalPlaces, k)
    ensures IsBelowTwo(Shifted(number, k)) <==> IsBelowTwo(Shifted(number, decimalPlaces))
  {
    ShiftedGrows(number, k, decimalPlaces);
  }

  lemma SmallNumber(number: real, k: nat)
    requires k > 5 && CanScale(Shifted(number, k - 1))
    ensures -1.0 < number < 1.0
  {
    ShiftedGrows(number, 5, k);
    ShiftedIsScaled(number, 5);
    assert RealPower(2) == 100.0;
    assert RealPower(3) == 1000.0;
    assert RealPower(5) == 100000.0;
    assert Shifted(number, k) == Shifted(number, k - 1) * 10.0;
  }

  lemma Doubled(n: int, p: real)
    requires p >= 1.0
    ensures n >= 2 ==> n as real * p >= 2.0 * p
    ensures n <= -2 ==> n as real * p <= -2.0 * p
  {
    if n >= 2 {
      NotNegative(n as real - 2.0, p);
    } else if n <= -2 {
      NotNegative(-2.0 - n as real, p);
    }
  }

  lemma NotNegative(a: real, p: real)
    requires a >= 0.0 && p >= 1.0
    ensures a * p >= 0.0
  {
  }

  lemma DistanceOfMultiple(n: int, number: real, p: real)
    requires p >= 1.0 && -1.0 < number < 1.0
    requires (n > 0 ==> number > 0.0) && (n < 0 ==> number < 0.0)
    ensures Distance(n as real * p, number) < p <==> -2 < n < 2
  {
    Doubled(n, p);
    assert n == 1 ==> n as real * p == p;
    assert n == 0 ==> n as real * p == 0.0;
    assert n == -1 ==> n as real * p == -p;
  }

  /** A positive multiplier turns every shifted number of two or more into something far too large. */
  lemma WrappedRoundTrip(number: real, k: nat, v: Value)
    requires 128 < k <= 255 && CanScale(Shifted(number, k - 1))
    requires v.multiplier == 256 - k && v.value == Truncate(Shifted(number, k))
    ensures RoundTrips(number, v) <==> IsBelowTwo(Shifted(number, k))
  {
    SmallNumber(number, k);
    ShiftedGrows(number, 0, k);
    DistanceOfMultiple(v.value, number, RealPower(v.multiplier));
    assert UnitOf(v.multiplier) == RealPower(v.multiplier);
  }

  lemma EncodedRoundTripsExactly(number: real, decimalPlaces: nat, garbage: int, v: Value)
    requires decimalPlaces <= 255 && Fits(Truncate(number)) && Encodes(number, decimalPlaces, garbage, v)
    ensures RoundTrips(number, v) <==>
            (UsesManyPlaces(number, decimalPlaces) ==> IsBelowTwo(Shifted(number, decimalPlaces)))
  {
    var k: nat :| IsPrecision(number, decimalPlaces, k)
                  && v.multiplier == Wrap8(0 - k) && v.value == Truncate(Shifted(number, k));
    PrecisionOfMany(number, decimalPlaces, k);
    if k <= 128 {
      TruncateError(Shifted(number, k));
      ScalingBack(v.value, number, k);
    } else {
      BelowTwoAtEither(number, decimalPlaces, k);
      WrappedRoundTrip(number, k, v);
    }
  }

  /** With a zero for the out-of-range conversion, a scaled number is lost entirely. */
  lemma GarbageIsFar(number: real, decimalPlaces: nat, v: Value)
    requires Representable(Truncate(number)) && !Fits(Truncate(number)) && Encodes(number, decimalPlaces, 0, v)
    ensures !RoundTrips(number, v)
  {
    RepresentableMeansFits(Truncate(number));
    assert v.multiplier <= 3;
    assert RealPower(1) == 10.0 && RealPower(2) == 100.0 && RealPower(3) == 1000.0;
    assert Distance(0.0, number) >= 32767.0;
  }

  /**
   * Encoding a number with decimal places and decoding it again stays within one unit of the
   * final multiplier, whatever an out-of-range conversion yields, exactly if the number's
   * integer part fits 16 bits, and the places used are no more than 128 or leave less than two.
   * Numbers of up to 32767999 are accepted all the same.
   */
  lemma FloatRoundTripsExactlyIfItFits(number: real, decimalPlaces: nat)
    requires decimalPlaces <= 255 && Representable(Truncate(number))
    ensures (forall garbage, v | Fits(garbage) && Encodes(number, decimalPlaces, garbage, v) :: RoundTrips(number, v))
       <==> && Fits(Truncate(number))
            && (UsesManyPlaces(number, decimalPlaces) ==> IsBelowTwo(Shifted(number, decimalPlaces)))
  {
    if Fits(Truncate(number)) {
      var small := UsesManyPlaces(number, decimalPlaces) ==> IsBelowTwo(Shifted(number, decimalPlaces));
      forall garbage, v | Fits(garbage) && Encodes(number, decimalPlaces, garbage, v)
        ensures RoundTrips(number, v) <==> small
      {
        EncodedRoundTripsExactly(number, decimalPlaces, garbage, v);
      }
      var v := EncodingExists(number, decimalPlaces);
      assert Fits(0) && Encodes(number, decimalPlaces, 0, v);
    } else {
      var k := LeastExists(Truncate(number));
      var v := Value(k, 0, 0);
      assert Encodes(number, decimalPlaces, 0, v);
      GarbageIsFar(number, decimalPlaces, v);
    }
  }

  lemma LeastExists(n: int) returns (k: nat)
    requires Representable(n) && !Fits(n)
    ensures k > 0 && IsLeast(n, k)
  {
    RepresentableMeansFits(n);
    assert Scaled(n, 0) == n;
    k := 1;
    while !Fits(Scaled(n, k))
      invariant k <= 3 && forall j: nat | j < k :: !Fits(Scaled(n, j))
      decreases 3 - k
    {
      k := k + 1;
    }
  }
}
