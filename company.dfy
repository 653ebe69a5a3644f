/** The company entity (Company): registration data and the credit limit derived from it. */
module CompanyEntity {
  import opened Common
  import opened InvoiceEntity

  /** The stored columns of a company. */
  datatype CompanyRow = CompanyRow(
    id: Guid, cnpj: string, name: string, monthlyRevenue: real, segment: Segment, creditLimit: real)

  /** ICreditLimitCalculator: the calculator the company is given. */
  type LimitCalculator = (real, Segment) -> real

  class Company {
    var id: Guid
    var cnpj: string
    var name: string
    var monthlyRevenue: real
    var segment: Segment
    var creditLimit: real
    /** The navigation collection `_invoices`; nothing in the core adds to it. */
    var invoices: seq<Invoice>

    /** The entity's current column values. */
    function Row(): CompanyRow
      reads this
    {
      CompanyRow(id, cnpj, name, monthlyRevenue, segment, creditLimit)
    }

    /**
     * The public constructor: stores the registration data as given and derives the limit with the
     * calculator. `id` is the Guid.NewGuid() initializer.
     */
    constructor (id: Guid, cnpj: string, name: string, monthlyRevenue: real, segment: Segment,
                 limitCalculator: LimitCalculator)
      ensures Row() == CompanyRow(id, cnpj, name, monthlyRevenue, segment, limitCalculator(monthlyRevenue, segment))
      ensures invoices == []
    {
      this.id := id;
      this.cnpj := cnpj;
      this.name := name;
      this.monthlyRevenue := monthlyRevenue;
      this.segment := segment;
      this.invoices := [];
      new;
      RecalculateCreditLimit(limitCalculator);
    }

    /**
     * RecalculateCreditLimit: only the limit changes, to the calculator's answer for the current
     * revenue and segment; when the limit already is that answer nothing changes (so a second call
     * with the same calculator is a no-op).
     */
    method RecalculateCreditLimit(calculator: LimitCalculator)
      modifies this`creditLimit
      ensures creditLimit == calculator(monthlyRevenue, segment)
      ensures Row() == old(Row()).(creditLimit := calculator(monthlyRevenue, segment))
      ensures old(creditLimit) == calculator(monthlyRevenue, segment) ==> Row() == old(Row())
    {
      creditLimit := calculator(monthlyRevenue, segment);
    }
  }
}
