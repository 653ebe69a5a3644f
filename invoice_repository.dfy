/** The invoice repository (InvoiceRepository): LINQ lookups over the Invoices table and the two writes. */
module InvoiceRepository {
  import opened Common
  import opened InvoiceEntity
  import opened InvoiceQueries
  import opened Persistence

  /** FirstOrDefault(i => i.Number == number && i.CompanyId == companyId). */
  function GetByNumberAndCompany(rows: seq<InvoiceRow>, number: string, companyId: Guid): (r: Option<InvoiceRow>)
    ensures r.Some? ==> r.value in rows && r.value.number == number && r.value.companyId == companyId
    ensures r.None? <==> forall x :: x in rows ==> !(x.number == number && x.companyId == companyId)
  {
    if rows == [] then None
    else if rows[0].number == number && rows[0].companyId == companyId then Some(rows[0])
    else
      assert rows == [rows[0]] + rows[1..];
      GetByNumberAndCompany(rows[1..], number, companyId)
  }

  /** Where(i => i.CompanyId == companyId): every invoice of the company, in the cart or not. */
  function GetByCompany(rows: seq<InvoiceRow>, companyId: Guid): (r: seq<InvoiceRow>)
    ensures forall x :: x in r <==> x in rows && x.companyId == companyId
  {
    if rows == [] then []
    else
      var head := if rows[0].companyId == companyId then [rows[0]] else [];
      head + GetByCompany(rows[1..], companyId)
  }

  /** The in-cart invoices of a company are among its invoices. */
  lemma InCartAreAmongCompanyInvoices(rows: seq<InvoiceRow>, companyId: Guid)
    ensures forall x :: x in InCartOf(rows, companyId) ==> x in GetByCompany(rows, companyId)
  {
  }

  /** AddAsync followed by SaveChangesAsync: the invoice is appended to the table. */
  method Add(ctx: AppDbContext, invoice: Invoice)
    requires ctx.Valid() && FindById(ctx.invoices, invoice.id).None? && invoice.companyId in ctx.companies
    modifies ctx
    ensures ctx.invoices == old(ctx.invoices) + [invoice.Row()] && ctx.companies == old(ctx.companies)
    ensures ctx.Valid()
  {
    ctx.AddInvoice(invoice.Row());
  }

  /** Update followed by SaveChangesAsync: the stored invoice with the same id takes the entity's values. */
  method Update(ctx: AppDbContext, invoice: Invoice)
    requires ctx.Valid() && FindById(ctx.invoices, invoice.id).Some? && invoice.companyId in ctx.companies
    modifies ctx
    ensures ctx.invoices == ReplaceById(old(ctx.invoices), invoice.Row()) && ctx.companies == old(ctx.companies)
    ensures ctx.Valid()
  {
    ctx.UpdateInvoice(invoice.Row());
  }
}
