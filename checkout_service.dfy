/**
 * The checkout (CheckoutService): the company's cart priced invoice by invoice with the anticipation
 * discount, in number order, refused when the gross total is over the credit limit.
 */
module CheckoutService {
  import opened Common
  import opened InvoiceEntity
  import opened CompanyEntity
  import opened InvoiceQueries
  import opened Persistence
  import opened CartRepository
  import opened AnticipationCalculator

  /** CheckoutInvoiceItemDto, and InvoiceCalculationDto for a single invoice: number, gross and net value. */
  datatype InvoiceQuote = InvoiceQuote(number: string, grossValue: real, netValue: real)

  datatype CheckoutDto = CheckoutDto(
    company: string, cnpj: string, creditLimit: real, invoices: seq<InvoiceQuote>, totalNet: real, totalGross: real)

  /** One invoice priced at `now`. */
  function Quote(x: InvoiceRow, now: DateTime, pow: Pow): InvoiceQuote
    requires PowPositive(pow)
  {
    InvoiceQuote(x.number, x.amount, CalculateNetValue(x.amount, x.dueDate, now, pow))
  }

  /** Every invoice priced at the same `now`, in order. */
  function Quotes(rows: seq<InvoiceRow>, now: DateTime, pow: Pow): seq<InvoiceQuote>
    requires PowPositive(pow)
  {
    seq(|rows|, i requires 0 <= i < |rows| => Quote(rows[i], now, pow))
  }

  function SumNet(items: seq<InvoiceQuote>): real
  {
    if items == [] then 0.0 else items[0].netValue + SumNet(items[1..])
  }

  /**
   * CalculateCheckoutAsync as a value: the company must exist and have invoices in its cart; the
   * in-cart invoices are ordered by number and priced; the gross total may equal the limit but not
   * exceed it.
   */
  function Checkout(companies: map<Guid, CompanyRow>, invoices: seq<InvoiceRow>, companyId: Guid, now: DateTime, pow: Pow)
    : (r: Result<CheckoutDto>)
    requires PowPositive(pow)
    ensures r.Failure? ==> r.error == CompanyNotFound || r.error == EmptyCart || r.error == CreditLimitExceeded
    ensures r.Success? ==>
      companyId in companies && r.value.invoices != [] && r.value.totalGross <= companies[companyId].creditLimit
  {
    if companyId !in companies then Failure(CompanyNotFound)
    else
      var invoicesList := InCartOf(invoices, companyId);
      if invoicesList == [] then Failure(EmptyCart)
      else
        var ordered := SortByNumber(invoicesList);
        assert |ordered| == |multiset(ordered)| == |multiset(invoicesList)| == |invoicesList|;
        var items := Quotes(ordered, now, pow);
        var totalGross := SumAmounts(ordered);
        var company := companies[companyId];
        if totalGross > company.creditLimit then Failure(CreditLimitExceeded)
        else Success(CheckoutDto(company.name, company.cnpj, company.creditLimit, items, SumNet(items), totalGross))
  }

  lemma SumAmountsSnoc(rows: seq<InvoiceRow>, x: InvoiceRow)
    ensures SumAmounts(rows + [x]) == SumAmounts(rows) + x.amount
  {
    SumAmountsAppend(rows, [x]);
  }

  lemma {:induction false} SumNetSnoc(items: seq<InvoiceQuote>, item: InvoiceQuote)
    ensures SumNet(items + [item]) == SumNet(items) + item.netValue
  {
    if items == [] {
      assert items + [item] == [item];
    } else {
      assert (items + [item])[1..] == items[1..] + [item];
      SumNetSnoc(items[1..], item);
    }
  }

  /** Pricing one more invoice of a list extends the quotes of its prefix by that invoice's quote. */
  lemma QuotesPrefixStep(rows: seq<InvoiceRow>, i: nat, now: DateTime, pow: Pow)
    requires PowPositive(pow) && i < |rows|
    ensures Quotes(rows[..i + 1], now, pow) == Quotes(rows[..i], now, pow) + [Quote(rows[i], now, pow)]
  {
    var longer := Quotes(rows[..i + 1], now, pow);
    var shorter := Quotes(rows[..i], now, pow) + [Quote(rows[i], now, pow)];
    assert |longer| == |shorter|;
    forall k | 0 <= k < |longer|
      ensures longer[k] == shorter[k]
    {
      assert rows[..i + 1][k] == rows[k];
    }
  }

  /** CalculateCheckoutAsync: the foreach loop accumulates the items and both totals. */
  method CalculateCheckout(ctx: AppDbContext, companyId: Guid, now: DateTime, pow: Pow) returns (r: Result<CheckoutDto>)
    requires PowPositive(pow)
    ensures r == Checkout(ctx.companies, ctx.invoices, companyId, now, pow)
  {
    if companyId !in ctx.companies {
      return Failure(CompanyNotFound);
    }
    var company := ctx.companies[companyId];
    var invoicesList := InCartOf(ctx.invoices, companyId);
    if |invoicesList| == 0 {
      return Failure(EmptyCart);
    }
    var ordered := SortByNumber(invoicesList);
    var checkoutInvoices: seq<InvoiceQuote> := [];
    var totalGross := 0.0;
    var totalNet := 0.0;
    for i := 0 to |ordered|
      invariant checkoutInvoices == Quotes(ordered[..i], now, pow)
      invariant totalGross == SumAmounts(ordered[..i])
      invariant totalNet == SumNet(checkoutInvoices)
    {
      var invoice := ordered[i];
      var netValue := CalculateNetValue(invoice.amount, invoice.dueDate, now, pow);
      var item := InvoiceQuote(invoice.number, invoice.amount, netValue);
      assert item == Quote(invoice, now, pow);
      QuotesPrefixStep(ordered, i, now, pow);
      assert ordered[..i + 1] == ordered[..i] + [invoice];
      SumAmountsSnoc(ordered[..i], invoice);
      SumNetSnoc(checkoutInvoices, item);
      checkoutInvoices := checkoutInvoices + [item];
      totalGross := totalGross + invoice.amount;
      totalNet := totalNet + netValue;
    }
    assert ordered[..|ordered|] == ordered;
    if totalGross > company.creditLimit {
      return Failure(CreditLimitExceeded);
    }
    return Success(CheckoutDto(company.name, company.cnpj, company.creditLimit, checkoutInvoices, totalNet, totalGross));
  }

  /** CalculateCheckoutByInvoiceIdAsync: one invoice priced at `now`, with no cart or limit check. */
  method CalculateCheckoutByInvoiceId(ctx: AppDbContext, invoiceId: Guid, now: DateTime, pow: Pow)
    returns (r: Result<InvoiceQuote>)
    requires PowPositive(pow)
    ensures r.Failure? <==> forall x :: x in ctx.invoices ==> x.id != invoiceId
    ensures r.Failure? ==> r.error == InvoiceNotFound
    ensures r.Success? ==> exists x :: x in ctx.invoices && x.id == invoiceId && r.value == Quote(x, now, pow)
    ensures r.Success? ==> r.value.netValue == CalculateNetValue(r.value.grossValue, FindById(ctx.invoices, invoiceId).value.dueDate, now, pow)
  {
    var invoice := FindById(ctx.invoices, invoiceId);
    if invoice.None? {
      return Failure(InvoiceNotFound);
    }
    var netValue := CalculateNetValue(invoice.value.amount, invoice.value.dueDate, now, pow);
    return Success(InvoiceQuote(invoice.value.number, invoice.value.amount, netValue));
  }

  /** The cart is empty exactly when its ordered listing is. */
  lemma EmptyCartIsEmptyListing(invoices: seq<InvoiceRow>, companyId: Guid)
    ensures InCartOf(invoices, companyId) == [] <==> GetCartItemsByCompany(invoices, companyId) == []
  {
    var items := GetCartItemsByCompany(invoices, companyId);
    assert |items| == |multiset(items)| == |multiset(InCartOf(invoices, companyId))| == |InCartOf(invoices, companyId)|;
  }

  /**
   * The outcome of a checkout: which failure, exactly when. The gross total compared with the limit is
   * the cart total of the repository.
   */
  lemma CheckoutOutcome(companies: map<Guid, CompanyRow>, invoices: seq<InvoiceRow>, companyId: Guid, now: DateTime, pow: Pow)
    requires PowPositive(pow)
    ensures var r := Checkout(companies, invoices, companyId, now, pow);
      && (r == Failure(CompanyNotFound) <==> companyId !in companies)
      && (r == Failure(EmptyCart) <==> companyId in companies && GetCartItemsByCompany(invoices, companyId) == [])
      && (r == Failure(CreditLimitExceeded) <==>
          companyId in companies && GetCartItemsByCompany(invoices, companyId) != []
          && GetCartTotal(invoices, companyId) > companies[companyId].creditLimit)
      && (r.Success? <==>
          companyId in companies && GetCartItemsByCompany(invoices, companyId) != []
          && GetCartTotal(invoices, companyId) <= companies[companyId].creditLimit)
  {
    EmptyCartIsEmptyListing(invoices, companyId);
  }

  /** A successful checkout is the priced ordered listing of the cart, with the company's data. */
  lemma CheckoutShape(companies: map<Guid, CompanyRow>, invoices: seq<InvoiceRow>, companyId: Guid, now: DateTime, pow: Pow)
    requires PowPositive(pow)
    requires Checkout(companies, invoices, companyId, now, pow).Success?
    ensures var dto := Checkout(companies, invoices, companyId, now, pow).value;
      && companyId in companies
      && dto.invoices == Quotes(GetCartItemsByCompany(invoices, companyId), now, pow)
      && dto.totalGross == GetCartTotal(invoices, companyId)
      && dto.totalNet == SumNet(dto.invoices)
      && dto.company == companies[companyId].name && dto.cnpj == companies[companyId].cnpj
      && dto.creditLimit == companies[companyId].creditLimit
  {
  }

  /**
   * A successful checkout has one quote per in-cart invoice of the company, in ascending number
   * order, each with the invoice's amount as gross value and its net value at the one `now`.
   */
  lemma CheckoutItemsInNumberOrder(companies: map<Guid, CompanyRow>, invoices: seq<InvoiceRow>, companyId: Guid, now: DateTime, pow: Pow)
    requires PowPositive(pow)
    requires Checkout(companies, invoices, companyId, now, pow).Success?
    ensures var dto := Checkout(companies, invoices, companyId, now, pow).value;
      var items := GetCartItemsByCompany(invoices, companyId);
      && |dto.invoices| == |items| == |InCartOf(invoices, companyId)|
      && (forall i, j :: 0 <= i < j < |dto.invoices| ==> NumberLe(dto.invoices[i].number, dto.invoices[j].number))
      && (forall i :: 0 <= i < |dto.invoices| ==>
            items[i] in invoices && items[i].companyId == companyId && items[i].inCart
            && dto.invoices[i].number == items[i].number
            && dto.invoices[i].grossValue == items[i].amount
            && dto.invoices[i].netValue == CalculateNetValue(items[i].amount, items[i].dueDate, now, pow))
  {
    CheckoutShape(companies, invoices, companyId, now, pow);
    var items := GetCartItemsByCompany(invoices, companyId);
    assert |items| == |multiset(items)| == |multiset(InCartOf(invoices, companyId))| == |InCartOf(invoices, companyId)|;
  }

  /** Every in-cart invoice of the company is quoted in a successful checkout. */
  lemma CheckoutCoversCart(companies: map<Guid, CompanyRow>, invoices: seq<InvoiceRow>, companyId: Guid, now: DateTime, pow: Pow)
    requires PowPositive(pow)
    requires Checkout(companies, invoices, companyId, now, pow).Success?
    ensures var dto := Checkout(companies, invoices, companyId, now, pow).value;
      forall x :: x in invoices && x.companyId == companyId && x.inCart ==> Quote(x, now, pow) in dto.invoices
  {
    CheckoutShape(companies, invoices, companyId, now, pow);
    var dto := Checkout(companies, invoices, companyId, now, pow).value;
    var items := GetCartItemsByCompany(invoices, companyId);
    forall x | x in invoices && x.companyId == companyId && x.inCart
      ensures Quote(x, now, pow) in dto.invoices
    {
      var k :| 0 <= k < |items| && items[k] == x;
      assert dto.invoices[k] == Quote(x, now, pow);
    }
  }

  /** Under the cart invariant a checkout of an existing company is never refused for the limit. */
  lemma WithinLimitsCheckoutNotRefused(companies: map<Guid, CompanyRow>, invoices: seq<InvoiceRow>, companyId: Guid, now: DateTime, pow: Pow)
    requires PowPositive(pow) && CartsWithinLimits(companies, invoices)
    ensures Checkout(companies, invoices, companyId, now, pow) != Failure(CreditLimitExceeded)
  {
    CheckoutOutcome(companies, invoices, companyId, now, pow);
  }

  lemma {:induction false} NetTotalAtMostGross(rows: seq<InvoiceRow>, now: DateTime, pow: Pow)
    requires PowPositive(pow) && PowAtLeastOne(pow)
    requires forall x :: x in rows ==> 0.0 <= x.amount && IsCents(x.amount)
    ensures 0.0 <= SumNet(Quotes(rows, now, pow)) <= SumAmounts(rows)
  {
    if rows != [] {
      var qs := Quotes(rows, now, pow);
      assert qs[1..] == Quotes(rows[1..], now, pow);
      NetValueAtMostGross(rows[0].amount, rows[0].dueDate, now, pow);
      NetTotalAtMostGross(rows[1..], now, pow);
    }
  }

  /**
   * When the power is at least 1 and every amount in the cart is a non-negative number of cents,
   * the net total is between 0 and the gross total.
   */
  lemma CheckoutNetAtMostGross(companies: map<Guid, CompanyRow>, invoices: seq<InvoiceRow>, companyId: Guid, now: DateTime, pow: Pow)
    requires PowPositive(pow) && PowAtLeastOne(pow)
    requires forall x :: x in invoices && x.companyId == companyId && x.inCart ==> 0.0 <= x.amount && IsCents(x.amount)
    requires Checkout(companies, invoices, companyId, now, pow).Success?
    ensures var dto := Checkout(companies, invoices, companyId, now, pow).value;
      0.0 <= dto.totalNet <= dto.totalGross
  {
    var ordered := SortByNumber(InCartOf(invoices, companyId));
    assert ordered == GetCartItemsByCompany(invoices, companyId);
    NetTotalAtMostGross(ordered, now, pow);
  }
}
