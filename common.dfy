/** Types shared by every part of the receivables model. */
module Common {

  /** Entity identifiers (System.Guid). Fresh ids are handed in by the caller. */
  type Guid = nat

  datatype Option<+T> = None | Some(value: T)

  /** The typed failures the services raise (all are InvalidOperationException in the source). */
  datatype Error =
    | CompanyNotFound
    | InvoiceNotFound
    | InvoiceOfAnotherCompany
    | AlreadyInCart
    | NotInCart
    | CreditLimitExceeded
    | EmptyCart
    | DuplicateCnpj
    | RevenueBelowMinimum
    | DuplicateInvoiceNumber
    | InvoiceInCart

  datatype Result<+T> = Success(value: T) | Failure(error: Error)

  /**
   * The business segment. C# enums are open, so a value other than the two named ones is possible;
   * OtherSegment(code) stands for such a value, and `code` is meant to differ from the numeric values
   * of Services and Products (a code equal to one of them would alias that member, and the model then
   * treats it as unnamed).
   */
  datatype Segment = Services | Products | OtherSegment(code: int)

  /** System.DateTime, as its tick count (100 ns units since 0001-01-01). */
  datatype DateTime = DateTime(ticks: nat)

  const TicksPerDay: nat := 864_000_000_000

  /** The calendar date of an instant (DateTime.Date), as a day number. */
  function DayNumber(t: DateTime): (d: int)
    ensures 0 <= d && d * TicksPerDay <= t.ticks < (d + 1) * TicksPerDay
  {
    t.ticks / TicksPerDay
  }

  /** The instant at midnight of day number `day`. */
  function StartOfDay(day: nat): (t: DateTime)
    ensures DayNumber(t) == day
  {
    DateTime(day * TicksPerDay)
  }
}
