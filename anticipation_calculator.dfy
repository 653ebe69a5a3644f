/** Anticipation pricing: the present value of an invoice paid before its due date (AnticipationCalculator). */
module AnticipationCalculator {
  import opened Common

  const MonthlyRate: real := 0.0465
  const Base: real := 1.0 + MonthlyRate

  /**
   * The power function. The source computes it as Math.Pow on doubles and converts the result back to
   * decimal; here it is a parameter about which only what each lemma states is known.
   */
  type Pow = (real, real) -> real

  /** Math.Pow of the positive base to a positive exponent is positive (so the division is defined). */
  ghost predicate PowPositive(pow: Pow)
  {
    forall e: real :: 0.0 < e ==> 0.0 < pow(Base, e)
  }

  /** The base raised to a positive exponent is at least 1. */
  ghost predicate PowAtLeastOne(pow: Pow)
  {
    forall e: real :: 0.0 < e ==> 1.0 <= pow(Base, e)
  }

  /** A larger exponent gives a larger power. */
  ghost predicate PowMonotone(pow: Pow)
  {
    forall e1: real, e2: real :: 0.0 < e1 <= e2 ==> pow(Base, e1) <= pow(Base, e2)
  }

  /** Calendar days from `now` to `dueDate`: (dueDate.Date - now.Date).Days. */
  function Days(dueDate: DateTime, now: DateTime): int
  {
    DayNumber(dueDate) - DayNumber(now)
  }

  /** x is a whole number of cents. */
  predicate IsCents(x: real)
  {
    (x * 100.0).Floor as real == x * 100.0
  }

  /** decimal.Round(x, 2, MidpointRounding.AwayFromZero). */
  function Round2(x: real): real
  {
    if x >= 0.0 then ((x * 100.0 + 0.5).Floor as real) / 100.0
    else -((((-x) * 100.0 + 0.5).Floor as real) / 100.0)
  }

  /** CalculateNetValue: gross when not yet due, otherwise gross / 1.0465^(days/30) rounded to cents. */
  function CalculateNetValue(grossValue: real, dueDate: DateTime, now: DateTime, pow: Pow): (net: real)
    requires PowPositive(pow)
    ensures Days(dueDate, now) <= 0 ==> net == grossValue
    ensures Days(dueDate, now) > 0 ==>
      var exact := grossValue / pow(Base, Days(dueDate, now) as real / 30.0);
      IsCents(net) && -0.005 <= net - exact <= 0.005
  {
    var days := Days(dueDate, now);
    if days <= 0 then grossValue
    else
      var exponent := days as real / 30.0;
      Round2IsNearestCentAwayFromZero(grossValue / pow(Base, exponent));
      Round2(grossValue / pow(Base, exponent))
  }

  /**
   * Round2 gives the nearest whole number of cents and, on a tie, the one farther from zero --
   * the definition of rounding to two places half away from zero.
   */
  lemma Round2IsNearestCentAwayFromZero(x: real)
    ensures IsCents(Round2(x))
    ensures -0.005 <= Round2(x) - x <= 0.005
    ensures Round2(x) - x == 0.005 ==> 0.0 < x
    ensures Round2(x) - x == -0.005 ==> x < 0.0
  {
    if x >= 0.0 {
      var k := (x * 100.0 + 0.5).Floor;
      assert Round2(x) * 100.0 == k as real;
    } else {
      var k := ((-x) * 100.0 + 0.5).Floor;
      assert Round2(x) * 100.0 == -(k as real);
      assert (-(k as real)).Floor == -k;
    }
  }

  /** A value already in whole cents is left as it is. */
  lemma Round2OfCents(x: real)
    requires IsCents(x)
    ensures Round2(x) == x
  {
    var k := (x * 100.0).Floor;
    if x >= 0.0 {
      assert (x * 100.0 + 0.5).Floor == k;
    } else {
      assert ((-x) * 100.0 + 0.5).Floor == -k;
    }
  }

  /** Rounding does not change the order of two values. */
  lemma Round2Monotone(x: real, y: real)
    requires x <= y
    ensures Round2(x) <= Round2(y)
  {
    if 0.0 <= x {
      assert (x * 100.0 + 0.5).Floor <= (y * 100.0 + 0.5).Floor;
    } else if y < 0.0 {
      assert ((-y) * 100.0 + 0.5).Floor <= ((-x) * 100.0 + 0.5).Floor;
    }
  }

  /** The day count depends on the calendar dates only; the time of day is ignored. */
  lemma NetValueIgnoresTimeOfDay(grossValue: real, d1: DateTime, d2: DateTime, n1: DateTime, n2: DateTime, pow: Pow)
    requires PowPositive(pow)
    requires DayNumber(d1) == DayNumber(d2) && DayNumber(n1) == DayNumber(n2)
    ensures CalculateNetValue(grossValue, d1, n1, pow) == CalculateNetValue(grossValue, d2, n2, pow)
  {
  }

  /** Due today or in the past: the gross value, exactly and unrounded. */
  lemma NotYetDueIsGross(grossValue: real, dueDate: DateTime, now: DateTime, pow: Pow)
    requires PowPositive(pow)
    requires DayNumber(dueDate) <= DayNumber(now)
    ensures CalculateNetValue(grossValue, dueDate, now, pow) == grossValue
  {
  }

  /** Due in the future: the discounted value to the nearest cent. */
  lemma DueLaterIsDiscountedToCents(grossValue: real, dueDate: DateTime, now: DateTime, pow: Pow)
    requires PowPositive(pow)
    requires DayNumber(dueDate) > DayNumber(now)
    ensures var exact := grossValue / pow(Base, Days(dueDate, now) as real / 30.0);
      var net := CalculateNetValue(grossValue, dueDate, now, pow);
      IsCents(net) && -0.005 <= net - exact <= 0.005
  {
    var exact := grossValue / pow(Base, Days(dueDate, now) as real / 30.0);
    Round2IsNearestCentAwayFromZero(exact);
  }

  /**
   * When the power is at least 1, the net value of a non-negative gross value in whole cents never
   * exceeds it and is never negative.
   */
  lemma NetValueAtMostGross(grossValue: real, dueDate: DateTime, now: DateTime, pow: Pow)
    requires PowPositive(pow) && PowAtLeastOne(pow)
    requires 0.0 <= grossValue && IsCents(grossValue)
    ensures 0.0 <= CalculateNetValue(grossValue, dueDate, now, pow) <= grossValue
  {
    var days := Days(dueDate, now);
    if days > 0 {
      var p := pow(Base, days as real / 30.0);
      assert 1.0 <= p;
      var exact := grossValue / p;
      assert 0.0 <= exact <= grossValue by {
        assert exact * p == grossValue;
      }
      Round2Monotone(exact, grossValue);
      Round2OfCents(grossValue);
      Round2Monotone(0.0, exact);
      Round2OfCents(0.0);
    }
  }

  /** Without whole cents the bound fails: 0.009 due tomorrow is quoted at 0.01 even with no discount at all. */
  lemma SubCentGrossCanRoundUp()
    ensures var pow: Pow := (b, e) => 1.0;
      PowPositive(pow) && PowAtLeastOne(pow) &&
      CalculateNetValue(0.009, StartOfDay(1), StartOfDay(0), pow) == 0.01
  {
    var pow: Pow := (b, e) => 1.0;
    assert Round2(0.009) == 0.01 by {
      assert (0.009 * 100.0 + 0.5).Floor == 1;
    }
  }

  /** Dividing a non-negative value by a larger positive divisor gives no more. */
  lemma DivideByLarger(x: real, p1: real, p2: real)
    requires 0.0 <= x && 0.0 < p1 <= p2
    ensures x / p2 <= x / p1
  {
    var q1 := x / p1;
    var q2 := x / p2;
    assert q1 * p1 == x;
    assert q2 * p2 == x;
    assert 0.0 <= q1;
    assert q1 * p1 <= q1 * p2;
    assert q2 * p2 <= q1 * p2;
  }

  /** With a monotone power, more days to the due date never yield a larger net value. */
  lemma NetValueDecreasesWithDays(grossValue: real, due1: DateTime, due2: DateTime, now: DateTime, pow: Pow)
    requires PowPositive(pow) && PowMonotone(pow)
    requires 0.0 <= grossValue
    requires 0 < Days(due1, now) <= Days(due2, now)
    ensures CalculateNetValue(grossValue, due2, now, pow) <= CalculateNetValue(grossValue, due1, now, pow)
  {
    var p1 := pow(Base, Days(due1, now) as real / 30.0);
    var p2 := pow(Base, Days(due2, now) as real / 30.0);
    assert 0.0 < p1 <= p2;
    DivideByLarger(grossValue, p1, p2);
    Round2Monotone(grossValue / p2, grossValue / p1);
  }

  /**
   * Over the whole range of day counts: with a power at least 1 and monotone, a later due date never
   * gives a larger net value for a non-negative gross in whole cents, including the step from "not yet
   * due" (the gross itself) to "due later".
   */
  lemma NetValueAntitoneInDays(grossValue: real, due1: DateTime, due2: DateTime, now: DateTime, pow: Pow)
    requires PowPositive(pow) && PowAtLeastOne(pow) && PowMonotone(pow)
    requires 0.0 <= grossValue && IsCents(grossValue)
    requires Days(due1, now) <= Days(due2, now)
    ensures CalculateNetValue(grossValue, due2, now, pow) <= CalculateNetValue(grossValue, due1, now, pow)
  {
    if Days(due1, now) > 0 {
      NetValueDecreasesWithDays(grossValue, due1, due2, now, pow);
    } else {
      NetValueAtMostGross(grossValue, due2, now, pow);
    }
  }

  /** 1234.567 due on 2024-02-15, priced on 2024-01-15 (31 days later): the result is in whole cents. */
  lemma RoundsToTwoPlacesExample(pow: Pow)
    requires PowPositive(pow)
    ensures var net := CalculateNetValue(1234.567, StartOfDay(738930), StartOfDay(738899), pow);
      IsCents(net) && -0.005 <= net - 1234.567 / pow(Base, 31.0 / 30.0) <= 0.005
  {
    assert Days(StartOfDay(738930), StartOfDay(738899)) == 31;
  }

  /** An invoice of 1000 due in 30 days: 1000 / 1.0465 rounds to 955.57. */
  lemma ThirtyDaysExample(pow: Pow)
    requires PowPositive(pow) && pow(Base, 1.0) == 1.0465
    ensures CalculateNetValue(1000.0, StartOfDay(30), StartOfDay(0), pow) == 955.57
  {
    assert Days(StartOfDay(30), StartOfDay(0)) as real / 30.0 == 1.0;
    var exact := 1000.0 / 1.0465;
    assert 955.56 < exact < 955.57;
    assert (exact * 100.0 + 0.5).Floor == 95557;
  }
}
