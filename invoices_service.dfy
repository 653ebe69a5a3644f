/**
 * Invoice registration and editing (InvoicesService): a number is unique within its company, and an
 * invoice in a cart cannot be edited.
 */
module InvoicesService {
  import opened Common
  import opened InvoiceEntity
  import opened CompanyEntity
  import opened InvoiceQueries
  import opened Persistence
  import opened InvoiceRepository
  import opened UpdateInvoiceRequest
  import CartRepository

  datatype InvoiceRequest = InvoiceRequest(companyId: Guid, number: string, amount: real, dueDate: DateTime)

  datatype InvoiceDto = InvoiceDto(
    id: Guid, companyId: Guid, number: string, amount: real, dueDate: DateTime, inCart: bool)

  function MapToDto(x: InvoiceRow): InvoiceDto
  {
    InvoiceDto(x.id, x.companyId, x.number, x.amount, x.dueDate, x.inCart)
  }

  /** The checks of CreateAsync in their order. */
  function CreateCheck(companies: map<Guid, CompanyRow>, invoices: seq<InvoiceRow>, request: InvoiceRequest): Option<Error>
  {
    if request.companyId !in companies then Some(CompanyNotFound)
    else if GetByNumberAndCompany(invoices, request.number, request.companyId).Some? then Some(DuplicateInvoiceNumber)
    else None
  }

  /**
   * ValidateInvoiceNumberIsNotDuplicate: the lookup is made only when the number changes, and is a
   * failure only if it finds another invoice.
   */
  function DuplicateNumber(invoices: seq<InvoiceRow>, number: string, current: InvoiceRow): bool
  {
    if current.number == number then false
    else match GetByNumberAndCompany(invoices, number, current.companyId)
      case None => false
      case Some(existing) => existing.id != current.id
  }

  /** The checks of UpdateAsync in their order. */
  function UpdateCheck(invoices: seq<InvoiceRow>, id: Guid, request: UpdateInvoiceRequest): Option<Error>
  {
    match FindById(invoices, id)
    case None => Some(InvoiceNotFound)
    case Some(invoice) =>
      if DuplicateNumber(invoices, request.number, invoice) then Some(DuplicateInvoiceNumber)
      else if invoice.inCart then Some(InvoiceInCart)
      else None
  }

  /** The stored invoice after a successful update: new number, amount and due date, the rest kept. */
  function Edited(invoice: InvoiceRow, request: UpdateInvoiceRequest): InvoiceRow
  {
    invoice.(number := request.number, amount := request.amount, dueDate := request.dueDate)
  }

  /**
   * CreateAsync. `id` is the fresh Guid the new entity receives. On a failed check nothing is stored;
   * otherwise the invoice is appended, not in any cart, and the DTO echoes the request.
   */
  method Create(ctx: AppDbContext, request: InvoiceRequest, id: Guid) returns (r: Result<InvoiceDto>)
    requires ctx.Valid() && FindById(ctx.invoices, id).None?
    modifies ctx
    ensures ctx.Valid() && ctx.companies == old(ctx.companies)
    ensures CreateCheck(old(ctx.companies), old(ctx.invoices), request).Some? ==>
      r == Failure(CreateCheck(old(ctx.companies), old(ctx.invoices), request).value) && ctx.invoices == old(ctx.invoices)
    ensures CreateCheck(old(ctx.companies), old(ctx.invoices), request).None? ==>
      var row := InvoiceRow(id, request.companyId, request.number, request.amount, request.dueDate, false);
      ctx.invoices == old(ctx.invoices) + [row] && r == Success(MapToDto(row))
  {
    if request.companyId !in ctx.companies {
      return Failure(CompanyNotFound);
    }
    var existing := GetByNumberAndCompany(ctx.invoices, request.number, request.companyId);
    if existing.Some? {
      return Failure(DuplicateInvoiceNumber);
    }
    var invoice := new Invoice(id, request.companyId, request.number, request.amount, request.dueDate);
    InvoiceRepository.Add(ctx, invoice);
    return Success(MapToDto(invoice.Row()));
  }

  /**
   * UpdateAsync. On a failed check nothing is stored; otherwise the invoice takes the request's
   * number, amount and due date, keeps its id, company and cart flag, and the DTO shows it.
   */
  method Update(ctx: AppDbContext, id: Guid, request: UpdateInvoiceRequest) returns (r: Result<InvoiceDto>)
    requires ctx.Valid()
    modifies ctx
    ensures ctx.Valid() && ctx.companies == old(ctx.companies)
    ensures UpdateCheck(old(ctx.invoices), id, request).Some? ==>
      r == Failure(UpdateCheck(old(ctx.invoices), id, request).value) && ctx.invoices == old(ctx.invoices)
    ensures UpdateCheck(old(ctx.invoices), id, request).None? ==>
      var edited := Edited(FindById(old(ctx.invoices), id).value, request);
      ctx.invoices == ReplaceById(old(ctx.invoices), edited) && r == Success(MapToDto(edited))
  {
    var found := FindById(ctx.invoices, id);
    if found.None? {
      return Failure(InvoiceNotFound);
    }
    var invoice := new Invoice.Load(found.value);
    if invoice.number != request.number {
      var existing := GetByNumberAndCompany(ctx.invoices, request.number, invoice.companyId);
      if existing.Some? && existing.value.id != invoice.id {
        return Failure(DuplicateInvoiceNumber);
      }
    }
    if invoice.inCart {
      return Failure(InvoiceInCart);
    }
    invoice.Update(request.number, request.amount, request.dueDate);
    CartRepository.StoredInvoiceHasCompany(ctx.companies, ctx.invoices, found.value);
    InvoiceRepository.Update(ctx, invoice);
    return Success(MapToDto(invoice.Row()));
  }

  /** Keeping the number never reports a duplicate, whatever the table holds. */
  lemma SameNumberIsNeverDuplicate(invoices: seq<InvoiceRow>, id: Guid, request: UpdateInvoiceRequest)
    requires FindById(invoices, id).Some? && FindById(invoices, id).value.number == request.number
    ensures UpdateCheck(invoices, id, request) != Some(DuplicateInvoiceNumber)
    ensures UpdateCheck(invoices, id, request).None? <==> !FindById(invoices, id).value.inCart
  {
  }

  /**
   * A duplicate number is reported before the cart check: an invoice in the cart whose new number is
   * taken by another invoice of its company gets the duplicate error.
   */
  lemma DuplicateCheckedBeforeCart(invoices: seq<InvoiceRow>, id: Guid, request: UpdateInvoiceRequest, other: InvoiceRow)
    requires UniqueIds(invoices) && FindById(invoices, id).Some?
    requires var invoice := FindById(invoices, id).value;
      other in invoices && other.companyId == invoice.companyId && other.number == request.number
      && invoice.number != request.number
    ensures UpdateCheck(invoices, id, request) == Some(DuplicateInvoiceNumber)
  {
    var invoice := FindById(invoices, id).value;
    var existing := GetByNumberAndCompany(invoices, request.number, invoice.companyId);
    assert existing.Some?;
  }

  /**
   * With unique ids the `existing.Id != currentInvoice.Id` test never decides anything: an invoice
   * found under a different number is always another invoice. This rests on number equality being
   * exact (ordinal), as it is throughout this model; under a case-insensitive database collation a
   * case-only rename would find the invoice itself, and the id test is what lets it through.
   */
  lemma IdComparisonIsRedundant(invoices: seq<InvoiceRow>, number: string, current: InvoiceRow)
    requires UniqueIds(invoices) && current in invoices && current.number != number
    ensures DuplicateNumber(invoices, number, current) <==> GetByNumberAndCompany(invoices, number, current.companyId).Some?
  {
  }

  /** Invoice numbers are unique within each company. */
  predicate NumbersUnique(invoices: seq<InvoiceRow>)
  {
    forall i, j :: 0 <= i < j < |invoices| && invoices[i].companyId == invoices[j].companyId
      ==> invoices[i].number != invoices[j].number
  }

  /** A successful creation keeps numbers unique within each company. */
  lemma CreateKeepsNumbersUnique(companies: map<Guid, CompanyRow>, invoices: seq<InvoiceRow>, request: InvoiceRequest, id: Guid)
    requires NumbersUnique(invoices) && CreateCheck(companies, invoices, request).None?
    ensures NumbersUnique(invoices + [InvoiceRow(id, request.companyId, request.number, request.amount, request.dueDate, false)])
  {
    var row := InvoiceRow(id, request.companyId, request.number, request.amount, request.dueDate, false);
    var after := invoices + [row];
    forall i, j | 0 <= i < j < |after| && after[i].companyId == after[j].companyId
      ensures after[i].number != after[j].number
    {
      if j == |invoices| {
        assert invoices[i] in invoices;
      }
    }
  }

  /** A successful update keeps numbers unique within each company. */
  lemma UpdateKeepsNumbersUnique(invoices: seq<InvoiceRow>, id: Guid, request: UpdateInvoiceRequest)
    requires UniqueIds(invoices) && NumbersUnique(invoices) && UpdateCheck(invoices, id, request).None?
    ensures NumbersUnique(ReplaceById(invoices, Edited(FindById(invoices, id).value, request)))
  {
    var invoice := FindById(invoices, id).value;
    var edited := Edited(invoice, request);
    var after := ReplaceById(invoices, edited);
    forall i, j | 0 <= i < j < |after| && after[i].companyId == after[j].companyId
      ensures after[i].number != after[j].number
    {
      ReplaceByIdPointwise(invoices, edited, i);
      ReplaceByIdPointwise(invoices, edited, j);
      if invoices[i].id == id {
        FindByIdIsTheRowWithThatId(invoices, invoices[i]);
        if invoice.number != request.number {
          assert invoices[j] in invoices;
        }
      } else if invoices[j].id == id {
        FindByIdIsTheRowWithThatId(invoices, invoices[j]);
        if invoice.number != request.number {
          assert invoices[i] in invoices;
        }
      }
    }
  }

  /** A successful creation changes no cart total: the new invoice is not in any cart. */
  lemma CreateKeepsCartTotals(invoices: seq<InvoiceRow>, row: InvoiceRow, companyId: Guid)
    requires !row.inCart
    ensures CartRepository.GetCartTotal(invoices + [row], companyId) == CartRepository.GetCartTotal(invoices, companyId)
  {
    InCartOfSnocOutOfCart(invoices, row, companyId);
  }

  lemma {:induction false} InCartOfSnocOutOfCart(invoices: seq<InvoiceRow>, row: InvoiceRow, companyId: Guid)
    requires !row.inCart
    ensures InCartOf(invoices + [row], companyId) == InCartOf(invoices, companyId)
  {
    if invoices == [] {
      assert invoices + [row] == [row];
    } else {
      assert (invoices + [row])[1..] == invoices[1..] + [row];
      InCartOfSnocOutOfCart(invoices[1..], row, companyId);
    }
  }

  /**
   * A successful update changes no cart total, because an invoice in a cart is never edited; so the
   * cart invariant is preserved.
   */
  lemma UpdateKeepsCartTotals(companies: map<Guid, CompanyRow>, invoices: seq<InvoiceRow>, id: Guid, request: UpdateInvoiceRequest)
    requires UniqueIds(invoices) && UpdateCheck(invoices, id, request).None?
    ensures var after := ReplaceById(invoices, Edited(FindById(invoices, id).value, request));
      && (forall c :: CartRepository.GetCartTotal(after, c) == CartRepository.GetCartTotal(invoices, c))
      && (CartRepository.CartsWithinLimits(companies, invoices) ==> CartRepository.CartsWithinLimits(companies, after))
  {
    var invoice := FindById(invoices, id).value;
    var edited := Edited(invoice, request);
    forall c
      ensures CartRepository.GetCartTotal(ReplaceById(invoices, edited), c) == CartRepository.GetCartTotal(invoices, c)
    {
      CartRepository.TotalAfterReplace(invoices, invoice, edited, c);
    }
  }
}
