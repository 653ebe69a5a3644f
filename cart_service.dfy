/**
 * The cart service (CartService): admission to and removal from a company's cart, guarded by a
 * sequence of checks; a successful admission never takes the cart total above the credit limit.
 */
module CartService {
  import opened Common
  import opened InvoiceEntity
  import opened CompanyEntity
  import opened InvoiceQueries
  import opened Persistence
  import CartRepository
  import opened AnticipationCalculator
  import CheckoutService
  import CreditLimitCalculator

  datatype CartInvoiceDto = CartInvoiceDto(id: Guid, number: string, amount: real, dueDate: DateTime)

  datatype CartDto = CartDto(
    companyId: Guid, companyName: string, invoices: seq<CartInvoiceDto>, totalItems: int, totalGross: real)

  function MapToCartInvoiceDto(x: InvoiceRow): CartInvoiceDto
  {
    CartInvoiceDto(x.id, x.number, x.amount, x.dueDate)
  }

  /** Select(MapToCartInvoiceDto): one entry per invoice, in the same order. */
  function MapToCartInvoiceDtos(rows: seq<InvoiceRow>): (r: seq<CartInvoiceDto>)
    ensures |r| == |rows|
  {
    seq(|rows|, i requires 0 <= i < |rows| => MapToCartInvoiceDto(rows[i]))
  }

  /**
   * GetCartAsync: the company's in-cart invoices in number order, with their count and their total;
   * a missing company is an error.
   */
  function GetCart(companies: map<Guid, CompanyRow>, invoices: seq<InvoiceRow>, companyId: Guid): (r: Result<CartDto>)
    ensures r.Failure? <==> companyId !in companies
    ensures r.Failure? ==> r.error == CompanyNotFound
    ensures r.Success? ==>
      && r.value.companyId == companyId && r.value.companyName == companies[companyId].name
      && r.value.totalItems == |r.value.invoices| == |InCartOf(invoices, companyId)|
      && r.value.totalGross == CartRepository.GetCartTotal(invoices, companyId)
  {
    if companyId !in companies then Failure(CompanyNotFound)
    else
      var invoicesList := CartRepository.GetCartItemsByCompany(invoices, companyId);
      assert |invoicesList| == |multiset(invoicesList)| == |InCartOf(invoices, companyId)|;
      Success(CartDto(companyId, companies[companyId].name, MapToCartInvoiceDtos(invoicesList), |invoicesList|, SumAmounts(invoicesList)))
  }

  /** The entries of a cart are the mapped ordered listing of the repository. */
  lemma GetCartIsListing(companies: map<Guid, CompanyRow>, invoices: seq<InvoiceRow>, companyId: Guid)
    requires companyId in companies
    ensures GetCart(companies, invoices, companyId).value.invoices
      == MapToCartInvoiceDtos(CartRepository.GetCartItemsByCompany(invoices, companyId))
  {
  }

  /** The entries of a cart are in ascending number order. */
  lemma GetCartInNumberOrder(companies: map<Guid, CompanyRow>, invoices: seq<InvoiceRow>, companyId: Guid)
    requires companyId in companies
    ensures var entries := GetCart(companies, invoices, companyId).value.invoices;
      forall i, j :: 0 <= i < j < |entries| ==> NumberLe(entries[i].number, entries[j].number)
  {
    GetCartIsListing(companies, invoices, companyId);
    var items := CartRepository.GetCartItemsByCompany(invoices, companyId);
    assert SortedByNumber(items);
  }

  /** Each entry of a cart is an in-cart invoice of the company, and every such invoice has its entry. */
  lemma GetCartEntriesAreTheCart(companies: map<Guid, CompanyRow>, invoices: seq<InvoiceRow>, companyId: Guid)
    requires companyId in companies
    ensures var entries := GetCart(companies, invoices, companyId).value.invoices;
      && (forall i :: 0 <= i < |entries| ==>
            exists x :: x in invoices && x.companyId == companyId && x.inCart && entries[i] == MapToCartInvoiceDto(x))
      && (forall x :: x in invoices && x.companyId == companyId && x.inCart ==> MapToCartInvoiceDto(x) in entries)
  {
    GetCartIsListing(companies, invoices, companyId);
    var entries := GetCart(companies, invoices, companyId).value.invoices;
    var items := CartRepository.GetCartItemsByCompany(invoices, companyId);
    forall i | 0 <= i < |entries|
      ensures exists x :: x in invoices && x.companyId == companyId && x.inCart && entries[i] == MapToCartInvoiceDto(x)
    {
      assert items[i] in items;
    }
    forall x | x in invoices && x.companyId == companyId && x.inCart
      ensures MapToCartInvoiceDto(x) in entries
    {
      var k :| 0 <= k < |items| && items[k] == x;
      assert entries[k] == MapToCartInvoiceDto(x);
    }
  }

  /** A company with nothing in its cart gets an empty cart: no entries, 0 items, 0 gross. */
  lemma GetCartEmpty(companies: map<Guid, CompanyRow>, invoices: seq<InvoiceRow>, companyId: Guid)
    requires companyId in companies
    requires forall x :: x in invoices ==> !(x.companyId == companyId && x.inCart)
    ensures var cart := GetCart(companies, invoices, companyId).value;
      cart.invoices == [] && cart.totalItems == 0 && cart.totalGross == 0.0
  {
    NothingInCartIsEmpty(invoices, companyId);
  }

  /** The checks of AddInvoiceToCartAsync in their order; none means the invoice is admitted. */
  function AddCheck(companies: map<Guid, CompanyRow>, invoices: seq<InvoiceRow>, companyId: Guid, invoiceId: Guid)
    : Option<Error>
  {
    if companyId !in companies then Some(CompanyNotFound)
    else match FindById(invoices, invoiceId)
      case None => Some(InvoiceNotFound)
      case Some(invoice) =>
        if invoice.companyId != companyId then Some(InvoiceOfAnotherCompany)
        else if invoice.inCart then Some(AlreadyInCart)
        else if CartRepository.GetCartTotal(invoices, companyId) + invoice.amount > companies[companyId].creditLimit
        then Some(CreditLimitExceeded)
        else None
  }

  /** The checks of RemoveInvoiceFromCartAsync in their order. */
  function RemoveCheck(companies: map<Guid, CompanyRow>, invoices: seq<InvoiceRow>, companyId: Guid, invoiceId: Guid)
    : Option<Error>
  {
    if companyId !in companies then Some(CompanyNotFound)
    else match FindById(invoices, invoiceId)
      case None => Some(InvoiceNotFound)
      case Some(invoice) =>
        if invoice.companyId != companyId then Some(InvoiceOfAnotherCompany)
        else if !invoice.inCart then Some(NotInCart)
        else None
  }

  /**
   * AddInvoiceToCartAsync: on a failed check nothing changes and the failure is returned; otherwise
   * the invoice's flag is set and the new cart is returned.
   */
  method AddInvoiceToCart(ctx: AppDbContext, companyId: Guid, invoiceId: Guid) returns (r: Result<CartDto>)
    requires ctx.Valid()
    modifies ctx
    ensures ctx.Valid() && ctx.companies == old(ctx.companies)
    ensures AddCheck(old(ctx.companies), old(ctx.invoices), companyId, invoiceId).Some? ==>
      r == Failure(AddCheck(old(ctx.companies), old(ctx.invoices), companyId, invoiceId).value)
      && ctx.invoices == old(ctx.invoices)
    ensures AddCheck(old(ctx.companies), old(ctx.invoices), companyId, invoiceId).None? ==>
      ctx.invoices == CartRepository.WithCartFlag(old(ctx.invoices), invoiceId, true)
      && r == GetCart(ctx.companies, ctx.invoices, companyId)
  {
    if companyId !in ctx.companies {
      return Failure(CompanyNotFound);
    }
    var found := FindById(ctx.invoices, invoiceId);
    if found.None? {
      return Failure(InvoiceNotFound);
    }
    var invoice := found.value;
    if invoice.companyId != companyId {
      return Failure(InvoiceOfAnotherCompany);
    }
    if invoice.inCart {
      return Failure(AlreadyInCart);
    }
    var company := ctx.companies[companyId];
    var totalInCart := CartRepository.GetCartTotal(ctx.invoices, companyId);
    var newTotal := totalInCart + invoice.amount;
    if newTotal > company.creditLimit {
      return Failure(CreditLimitExceeded);
    }
    CartRepository.AddInvoiceToCart(ctx, invoiceId);
    r := GetCart(ctx.companies, ctx.invoices, companyId);
  }

  /**
   * RemoveInvoiceFromCartAsync: on a failed check nothing changes; otherwise the invoice's flag is
   * cleared and the new cart is returned.
   */
  method RemoveInvoiceFromCart(ctx: AppDbContext, companyId: Guid, invoiceId: Guid) returns (r: Result<CartDto>)
    requires ctx.Valid()
    modifies ctx
    ensures ctx.Valid() && ctx.companies == old(ctx.companies)
    ensures RemoveCheck(old(ctx.companies), old(ctx.invoices), companyId, invoiceId).Some? ==>
      r == Failure(RemoveCheck(old(ctx.companies), old(ctx.invoices), companyId, invoiceId).value)
      && ctx.invoices == old(ctx.invoices)
    ensures RemoveCheck(old(ctx.companies), old(ctx.invoices), companyId, invoiceId).None? ==>
      ctx.invoices == CartRepository.WithCartFlag(old(ctx.invoices), invoiceId, false)
      && r == GetCart(ctx.companies, ctx.invoices, companyId)
  {
    if companyId !in ctx.companies {
      return Failure(CompanyNotFound);
    }
    var found := FindById(ctx.invoices, invoiceId);
    if found.None? {
      return Failure(InvoiceNotFound);
    }
    var invoice := found.value;
    if invoice.companyId != companyId {
      return Failure(InvoiceOfAnotherCompany);
    }
    if !invoice.inCart {
      return Failure(NotInCart);
    }
    CartRepository.RemoveInvoiceFromCart(ctx, invoiceId);
    r := GetCart(ctx.companies, ctx.invoices, companyId);
  }

  /** GetCartCheckoutAsync: the company check, then the checkout. */
  method GetCartCheckout(ctx: AppDbContext, companyId: Guid, now: DateTime, pow: Pow)
    returns (r: Result<CheckoutService.CheckoutDto>)
    requires PowPositive(pow)
    ensures r == CheckoutService.Checkout(ctx.companies, ctx.invoices, companyId, now, pow)
    ensures companyId !in ctx.companies ==> r == Failure(CompanyNotFound)
  {
    if companyId !in ctx.companies {
      return Failure(CompanyNotFound);
    }
    r := CheckoutService.CalculateCheckout(ctx, companyId, now, pow);
  }

  /**
   * The central invariant: a successful admission leaves the company's cart total within its limit,
   * whatever the total was before, and leaves every other company's total as it was; so the
   * invariant over all companies is preserved.
   */
  lemma AddKeepsCartWithinLimit(companies: map<Guid, CompanyRow>, invoices: seq<InvoiceRow>, companyId: Guid, invoiceId: Guid)
    requires ValidStore(companies, invoices)
    requires AddCheck(companies, invoices, companyId, invoiceId).None?
    ensures var after := CartRepository.WithCartFlag(invoices, invoiceId, true);
      && CartRepository.GetCartTotal(after, companyId) <= companies[companyId].creditLimit
      && CartRepository.GetCartTotal(after, companyId)
         == CartRepository.GetCartTotal(invoices, companyId) + FindById(invoices, invoiceId).value.amount
      && (forall c :: c != companyId ==> CartRepository.GetCartTotal(after, c) == CartRepository.GetCartTotal(invoices, c))
      && (CartRepository.CartsWithinLimits(companies, invoices) ==> CartRepository.CartsWithinLimits(companies, after))
  {
    var after := CartRepository.WithCartFlag(invoices, invoiceId, true);
    forall c
      ensures CartRepository.GetCartTotal(after, c)
        == CartRepository.GetCartTotal(invoices, c) + (if c == companyId then FindById(invoices, invoiceId).value.amount else 0.0)
    {
      CartRepository.TotalAfterAdd(invoices, invoiceId, c);
    }
  }

  /**
   * A successful removal lowers the company's total by the invoice's amount and leaves the other
   * totals as they were; with a non-negative amount the invariant is preserved.
   */
  lemma RemoveKeepsCartWithinLimit(companies: map<Guid, CompanyRow>, invoices: seq<InvoiceRow>, companyId: Guid, invoiceId: Guid)
    requires ValidStore(companies, invoices)
    requires RemoveCheck(companies, invoices, companyId, invoiceId).None?
    ensures var after := CartRepository.WithCartFlag(invoices, invoiceId, false);
      && CartRepository.GetCartTotal(after, companyId)
         == CartRepository.GetCartTotal(invoices, companyId) - FindById(invoices, invoiceId).value.amount
      && (forall c :: c != companyId ==> CartRepository.GetCartTotal(after, c) == CartRepository.GetCartTotal(invoices, c))
      && (CartRepository.CartsWithinLimits(companies, invoices) && 0.0 <= FindById(invoices, invoiceId).value.amount
          ==> CartRepository.CartsWithinLimits(companies, after))
  {
    var after := CartRepository.WithCartFlag(invoices, invoiceId, false);
    forall c
      ensures CartRepository.GetCartTotal(after, c)
        == CartRepository.GetCartTotal(invoices, c) - (if c == companyId then FindById(invoices, invoiceId).value.amount else 0.0)
    {
      CartRepository.TotalAfterRemove(invoices, invoiceId, c);
    }
  }

  /** The limit check admits a total equal to the limit. */
  lemma AddAdmitsTotalEqualToLimit(companies: map<Guid, CompanyRow>, invoices: seq<InvoiceRow>, companyId: Guid, invoiceId: Guid)
    requires companyId in companies && FindById(invoices, invoiceId).Some?
    requires var x := FindById(invoices, invoiceId).value;
      x.companyId == companyId && !x.inCart
      && CartRepository.GetCartTotal(invoices, companyId) + x.amount == companies[companyId].creditLimit
    ensures AddCheck(companies, invoices, companyId, invoiceId).None?
  {
  }

  /**
   * Right after a successful admission the same invoice can be removed, and removing it restores
   * the table.
   */
  lemma AddThenRemoveRoundTrip(companies: map<Guid, CompanyRow>, invoices: seq<InvoiceRow>, companyId: Guid, invoiceId: Guid)
    requires ValidStore(companies, invoices)
    requires AddCheck(companies, invoices, companyId, invoiceId).None?
    ensures var after := CartRepository.WithCartFlag(invoices, invoiceId, true);
      && RemoveCheck(companies, after, companyId, invoiceId).None?
      && CartRepository.WithCartFlag(after, invoiceId, false) == invoices
  {
    CartRepository.FlagChangesOnlyTarget(invoices, invoiceId, true, invoiceId);
    CartRepository.AddThenRemoveRestores(invoices, invoiceId);
  }

  /** A failed check is reported before any later one: an unknown company hides every other problem. */
  lemma UnknownCompanyWins(companies: map<Guid, CompanyRow>, invoices: seq<InvoiceRow>, companyId: Guid, invoiceId: Guid)
    requires companyId !in companies
    ensures AddCheck(companies, invoices, companyId, invoiceId) == Some(CompanyNotFound)
    ensures RemoveCheck(companies, invoices, companyId, invoiceId) == Some(CompanyNotFound)
    ensures GetCart(companies, invoices, companyId) == Failure(CompanyNotFound)
  {
  }

  /**
   * The over-limit scenario: revenue 50000 in Services gives a limit of 25000; with 10000 already in
   * the cart an invoice of 20000 is refused.
   */
  lemma OverLimitScenario(dueDate: DateTime)
    ensures var limit := CreditLimitCalculator.Calculate(50000.0, Services);
      var companies := map[1 := CompanyRow(1, "12345678901234", "Test Company", 50000.0, Services, limit)];
      var invoices := [InvoiceRow(10, 1, "INV000", 10000.0, dueDate, true), InvoiceRow(11, 1, "INV001", 20000.0, dueDate, false)];
      limit == 25000.0 && AddCheck(companies, invoices, 1, 11) == Some(CreditLimitExceeded)
  {
    var invoices := [InvoiceRow(10, 1, "INV000", 10000.0, dueDate, true), InvoiceRow(11, 1, "INV001", 20000.0, dueDate, false)];
    var cart := [invoices[0]];
    assert InCartOf(invoices[1..], 1) == [];
    assert InCartOf(invoices, 1) == cart;
    SumAmountsSort(cart);
    assert CartRepository.GetCartTotal(invoices, 1) == 10000.0;
    assert FindById(invoices, 11) == Some(invoices[1]);
  }

  /** The cart scenario: two in-cart invoices of 10000 and 5000 give 2 items and 15000 gross. */
  lemma TwoInvoiceCartScenario(dueDate: DateTime)
    ensures var companies := map[1 := CompanyRow(1, "12345678901234", "Test Company", 50000.0, Services, 25000.0)];
      var invoices := [InvoiceRow(10, 1, "INV001", 10000.0, dueDate, true), InvoiceRow(11, 1, "INV002", 5000.0, dueDate, true)];
      var cart := GetCart(companies, invoices, 1);
      cart.Success? && cart.value.companyName == "Test Company" && cart.value.totalItems == 2 && cart.value.totalGross == 15000.0
  {
    var invoices := [InvoiceRow(10, 1, "INV001", 10000.0, dueDate, true), InvoiceRow(11, 1, "INV002", 5000.0, dueDate, true)];
    assert InCartOf(invoices[1..][1..], 1) == [];
    assert InCartOf(invoices[1..], 1) == invoices[1..];
    assert InCartOf(invoices, 1) == invoices;
    SumAmountsSort(invoices);
    assert SumAmounts(invoices[1..]) == 5000.0;
    assert CartRepository.GetCartTotal(invoices, 1) == 15000.0;
  }
}
