/** Company registration (CompaniesService): the duplicate and revenue checks, then the new company. */
module CompaniesService {
  import opened Common
  import opened InvoiceEntity
  import opened CompanyEntity
  import opened InvoiceQueries
  import opened Persistence
  import opened CompanyRequest
  import CartRepository
  import CreditLimitCalculator

  datatype CompanyDto = CompanyDto(
    id: Guid, cnpj: string, name: string, monthlyRevenue: real, segment: Segment, creditLimit: real)

  /** The `minimumRevenue` constant of ValidateMinimumRevenue. */
  const MinimumRevenue: real := 10000.0

  /** The checks of CreateAsync in their order: the CNPJ lookup first, then the revenue floor. */
  function CreateCheck(companies: map<Guid, CompanyRow>, cnpj: string, monthlyRevenue: real): Option<Error>
  {
    if CnpjTaken(companies, cnpj) then Some(DuplicateCnpj)
    else if monthlyRevenue < MinimumRevenue then Some(RevenueBelowMinimum)
    else None
  }

  /**
   * CreateAsync. `id` is the fresh Guid the new entity receives. The request has passed model
   * validation, so its CNPJ is present. On a failed check nothing is stored; otherwise exactly one
   * company is added, with the credit limit the calculator gives for its revenue and segment, and the
   * returned DTO echoes it.
   */
  method Create(ctx: AppDbContext, request: CompanyRequest, id: Guid) returns (r: Result<CompanyDto>)
    requires ctx.Valid() && request.cnpj.Some? && id !in ctx.companies
    modifies ctx
    ensures ctx.Valid() && ctx.invoices == old(ctx.invoices)
    ensures CreateCheck(old(ctx.companies), request.cnpj.value, request.monthlyRevenue).Some? ==>
      r == Failure(CreateCheck(old(ctx.companies), request.cnpj.value, request.monthlyRevenue).value)
      && ctx.companies == old(ctx.companies)
    ensures CreateCheck(old(ctx.companies), request.cnpj.value, request.monthlyRevenue).None? ==>
      var limit := CreditLimitCalculator.Calculate(request.monthlyRevenue, request.segment);
      && r == Success(CompanyDto(id, request.cnpj.value, request.name, request.monthlyRevenue, request.segment, limit))
      && ctx.companies == old(ctx.companies)[id := CompanyRow(id, request.cnpj.value, request.name, request.monthlyRevenue, request.segment, limit)]
      && |ctx.companies| == |old(ctx.companies)| + 1
  {
    var cnpj := request.cnpj.value;
    if CnpjTaken(ctx.companies, cnpj) {
      return Failure(DuplicateCnpj);
    }
    if request.monthlyRevenue < MinimumRevenue {
      return Failure(RevenueBelowMinimum);
    }
    var company := new Company(id, cnpj, request.name, request.monthlyRevenue, request.segment, CreditLimitCalculator.Calculate);
    ctx.AddCompany(company.Row());
    return Success(CompanyDto(company.id, company.cnpj, company.name, company.monthlyRevenue, company.segment, company.creditLimit));
  }

  /** An existing CNPJ is reported as a duplicate even when the revenue is also too low. */
  lemma DuplicateCheckedBeforeRevenue(companies: map<Guid, CompanyRow>, cnpj: string, monthlyRevenue: real)
    requires CnpjTaken(companies, cnpj)
    ensures CreateCheck(companies, cnpj, monthlyRevenue) == Some(DuplicateCnpj)
  {
  }

  /**
   * A registered company has a positive limit when its segment is one of the two named ones, and
   * never a negative one: the revenue floor of the service is the calculator's lowest bracket.
   */
  lemma RegisteredLimitIsPositive(companies: map<Guid, CompanyRow>, cnpj: string, monthlyRevenue: real, segment: Segment)
    requires CreateCheck(companies, cnpj, monthlyRevenue).None?
    ensures 0.0 <= CreditLimitCalculator.Calculate(monthlyRevenue, segment)
    ensures (segment.Services? || segment.Products?) ==> 0.5 * monthlyRevenue <= CreditLimitCalculator.Calculate(monthlyRevenue, segment)
  {
  }

  /**
   * Registering a company keeps the database constraints and the cart invariant: the new company has
   * no invoices, so its cart total is 0, within its non-negative limit, and no other total or limit
   * changes.
   */
  lemma CreateKeepsCartsWithinLimits(companies: map<Guid, CompanyRow>, invoices: seq<InvoiceRow>, row: CompanyRow)
    requires ValidStore(companies, invoices) && row.id !in companies && 0.0 <= row.creditLimit
    requires CartRepository.CartsWithinLimits(companies, invoices)
    ensures ValidStore(companies[row.id := row], invoices)
    ensures CartRepository.GetCartTotal(invoices, row.id) == 0.0
    ensures CartRepository.CartsWithinLimits(companies[row.id := row], invoices)
  {
    forall x | x in invoices
      ensures x.companyId != row.id
    {
      CartRepository.StoredInvoiceHasCompany(companies, invoices, x);
    }
  }
}
