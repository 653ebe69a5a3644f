/** The validation of an invoice edit request (UpdateInvoiceRequest). */
module UpdateInvoiceRequest {
  import opened Common

  datatype UpdateInvoiceRequest = UpdateInvoiceRequest(number: string, amount: real, dueDate: DateTime)

  /** The member an error is reported against. */
  datatype Field = DueDateField | AmountField

  /**
   * Validate: two independent rules with no early exit, due date first. `now` stands for
   * DateTime.UtcNow. The due date must fall on a later calendar day; the amount must be positive.
   */
  function Validate(request: UpdateInvoiceRequest, now: DateTime): (errors: seq<Field>)
    ensures DueDateField in errors <==> DayNumber(request.dueDate) <= DayNumber(now)
    ensures AmountField in errors <==> request.amount <= 0.0
    ensures errors == [] <==> DayNumber(request.dueDate) > DayNumber(now) && request.amount > 0.0
    ensures |errors| <= 2 && (|errors| == 2 ==> errors == [DueDateField, AmountField])
  {
    var dueDateErrors := if DayNumber(request.dueDate) <= DayNumber(now) then [DueDateField] else [];
    var amountErrors := if request.amount <= 0.0 then [AmountField] else [];
    dueDateErrors + amountErrors
  }

  /** Only the calendar dates matter: a due date later today is still rejected. */
  lemma ValidateIgnoresTimeOfDay(request: UpdateInvoiceRequest, now1: DateTime, now2: DateTime, due: DateTime)
    requires DayNumber(now1) == DayNumber(now2) && DayNumber(due) == DayNumber(request.dueDate)
    ensures Validate(request, now1) == Validate(request.(dueDate := due), now2)
  {
  }

  /** A request that breaks both rules gets both errors, due date first. */
  lemma BothErrorsReported(request: UpdateInvoiceRequest, now: DateTime)
    requires DayNumber(request.dueDate) <= DayNumber(now) && request.amount <= 0.0
    ensures Validate(request, now) == [DueDateField, AmountField]
  {
  }
}
