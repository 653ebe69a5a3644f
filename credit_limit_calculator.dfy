/** The credit-limit tiering of a company (CreditLimitCalculator). */
module CreditLimitCalculator {
  import opened Common

  // Revenue brackets
  const MinimumSupportedRevenue: real := 10000.0
  const Bracket1Max: real := 50000.0
  const Bracket2Max: real := 100000.0

  // Rates (Services / Products)
  const Bracket1Rate: real := 0.50
  const Bracket2RateServices: real := 0.55
  const Bracket2RateProducts: real := 0.60
  const Bracket3RateServices: real := 0.60
  const Bracket3RateProducts: real := 0.65

  /** The switch of Calculate, arm by arm, first match wins; the last arm is the `_ => 0` fallback. */
  function Calculate(monthlyRevenue: real, segment: Segment): (limit: real)
    ensures 0.0 <= monthlyRevenue ==> 0.0 <= limit <= Bracket3RateProducts * monthlyRevenue
  {
    if monthlyRevenue < MinimumSupportedRevenue then 0.0
    else if monthlyRevenue <= Bracket1Max then monthlyRevenue * Bracket1Rate
    else if monthlyRevenue <= Bracket2Max && segment == Services then monthlyRevenue * Bracket2RateServices
    else if monthlyRevenue <= Bracket2Max && segment == Products then monthlyRevenue * Bracket2RateProducts
    else if monthlyRevenue > Bracket2Max && segment == Services then monthlyRevenue * Bracket3RateServices
    else if monthlyRevenue > Bracket2Max && segment == Products then monthlyRevenue * Bracket3RateProducts
    else 0.0
  }

  /** The rate table, one bracket per row (reference definition). */
  function Rate(monthlyRevenue: real, segment: Segment): (rate: real)
    requires segment.Services? || segment.Products?
  {
    if monthlyRevenue < MinimumSupportedRevenue then 0.0
    else if monthlyRevenue <= Bracket1Max then 0.50
    else if monthlyRevenue <= Bracket2Max then (if segment.Services? then 0.55 else 0.60)
    else (if segment.Services? then 0.60 else 0.65)
  }

  /** For the two named segments the switch is exactly revenue times the table's rate. */
  lemma CalculateIsRateTimesRevenue(monthlyRevenue: real, segment: Segment)
    requires segment.Services? || segment.Products?
    ensures Calculate(monthlyRevenue, segment) == monthlyRevenue * Rate(monthlyRevenue, segment)
  {
  }

  lemma BelowMinimumIsZero(monthlyRevenue: real, segment: Segment)
    requires monthlyRevenue < MinimumSupportedRevenue
    ensures Calculate(monthlyRevenue, segment) == 0.0
  {
  }

  /** Bracket 1 includes both of its ends and ignores the segment. */
  lemma Bracket1IsHalf(monthlyRevenue: real, segment: Segment)
    requires MinimumSupportedRevenue <= monthlyRevenue <= Bracket1Max
    ensures Calculate(monthlyRevenue, segment) == 0.50 * monthlyRevenue
  {
  }

  lemma Bracket2Rates(monthlyRevenue: real)
    requires Bracket1Max < monthlyRevenue <= Bracket2Max
    ensures Calculate(monthlyRevenue, Services) == 0.55 * monthlyRevenue
    ensures Calculate(monthlyRevenue, Products) == 0.60 * monthlyRevenue
  {
  }

  lemma Bracket3Rates(monthlyRevenue: real)
    requires Bracket2Max < monthlyRevenue
    ensures Calculate(monthlyRevenue, Services) == 0.60 * monthlyRevenue
    ensures Calculate(monthlyRevenue, Products) == 0.65 * monthlyRevenue
  {
  }

  /** The fallback arm only answers for a segment outside the two named ones above bracket 1. */
  lemma FallbackOnlyForUnnamedSegments(monthlyRevenue: real, segment: Segment)
    requires MinimumSupportedRevenue <= monthlyRevenue
    ensures Calculate(monthlyRevenue, segment) == 0.0 <==> segment.OtherSegment? && monthlyRevenue > Bracket1Max
  {
  }

  /** A larger revenue never yields a smaller limit, for a named segment. */
  lemma CalculateMonotone(r1: real, r2: real, segment: Segment)
    requires segment.Services? || segment.Products?
    requires r1 <= r2
    ensures Calculate(r1, segment) <= Calculate(r2, segment)
  {
  }

  /** Products never gets less than Services at the same revenue. */
  lemma ProductsAtLeastServices(monthlyRevenue: real)
    ensures Calculate(monthlyRevenue, Services) <= Calculate(monthlyRevenue, Products)
  {
  }

  /** The boundary values of the unit tests. */
  lemma BoundaryValues()
    ensures Calculate(9999.99, Services) == 0.0 && Calculate(9999.99, Products) == 0.0
    ensures Calculate(10000.0, Services) == 5000.0
    ensures Calculate(50000.0, Services) == 25000.0 && Calculate(50000.0, Products) == 25000.0
    ensures Calculate(50001.0, Services) == 27500.55 && Calculate(50001.0, Products) == 30000.60
    ensures Calculate(100000.0, Services) == 55000.0 && Calculate(100000.0, Products) == 60000.0
    ensures Calculate(100001.0, Services) == 60000.60 && Calculate(100001.0, Products) == 65000.65
  {
  }
}
