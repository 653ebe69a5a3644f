/**
 * The cart repository (CartRepository): a company's cart is the set of its invoices whose InCart
 * flag is set; the repository lists it by number, sums it and toggles the flag of one invoice.
 */
module CartRepository {
  import opened Common
  import opened InvoiceEntity
  import opened CompanyEntity
  import opened InvoiceQueries
  import opened Persistence

  /** GetCartItemsByCompanyAsync: the company's in-cart invoices, ascending by number. */
  function GetCartItemsByCompany(rows: seq<InvoiceRow>, companyId: Guid): (r: seq<InvoiceRow>)
    ensures SortedByNumber(r)
    ensures multiset(r) == multiset(InCartOf(rows, companyId))
    ensures forall x :: x in r <==> x in rows && x.companyId == companyId && x.inCart
  {
    var cart := InCartOf(rows, companyId);
    SortByNumberSorted(cart);
    assert forall x :: x in SortByNumber(cart) <==> x in multiset(cart);
    SortByNumber(cart)
  }

  /** GetCartTotalAsync: the sum of the amounts of the company's in-cart invoices. */
  function GetCartTotal(rows: seq<InvoiceRow>, companyId: Guid): (total: real)
    ensures total == SumAmounts(GetCartItemsByCompany(rows, companyId))
    ensures (forall x :: x in rows ==> !(x.companyId == companyId && x.inCart)) ==> total == 0.0
  {
    var cart := InCartOf(rows, companyId);
    SumAmountsSort(cart);
    assert (forall x :: x in rows ==> !(x.companyId == companyId && x.inCart)) ==> cart == [];
    SumAmounts(cart)
  }

  /** IsInvoiceInCartAsync: `invoice?.InCart ?? false`. */
  function IsInvoiceInCart(rows: seq<InvoiceRow>, invoiceId: Guid): (b: bool)
    ensures (forall x :: x in rows ==> x.id != invoiceId) ==> !b
    ensures UniqueIds(rows) ==> (b <==> exists x :: x in rows && x.id == invoiceId && x.inCart)
  {
    match FindById(rows, invoiceId)
    case None => false
    case Some(x) =>
      assert UniqueIds(rows) ==> forall y :: y in rows && y.id == invoiceId ==> y == x by {
        if UniqueIds(rows) {
          forall y | y in rows && y.id == invoiceId
            ensures y == x
          {
            FindByIdIsTheRowWithThatId(rows, y);
          }
        }
      }
      x.inCart
  }

  /**
   * The table after AddInvoiceToCartAsync (flag true) or RemoveInvoiceFromCartAsync (flag false):
   * the invoice with that id gets the flag; an unknown id changes nothing.
   */
  function WithCartFlag(rows: seq<InvoiceRow>, invoiceId: Guid, flag: bool): seq<InvoiceRow>
  {
    match FindById(rows, invoiceId)
    case None => rows
    case Some(x) => ReplaceById(rows, x.(inCart := flag))
  }

  /** AddInvoiceToCartAsync: load the invoice, set its flag, update it; nothing for an unknown id. */
  method AddInvoiceToCart(ctx: AppDbContext, invoiceId: Guid)
    requires ctx.Valid()
    modifies ctx
    ensures ctx.invoices == WithCartFlag(old(ctx.invoices), invoiceId, true) && ctx.companies == old(ctx.companies)
    ensures ctx.Valid()
  {
    var found := FindById(ctx.invoices, invoiceId);
    if found.Some? {
      var invoice := new Invoice.Load(found.value);
      invoice.AddToCart();
      StoredInvoiceHasCompany(ctx.companies, ctx.invoices, found.value);
      ctx.UpdateInvoice(invoice.Row());
    }
  }

  /** RemoveInvoiceFromCartAsync: load the invoice, clear its flag, update it; nothing for an unknown id. */
  method RemoveInvoiceFromCart(ctx: AppDbContext, invoiceId: Guid)
    requires ctx.Valid()
    modifies ctx
    ensures ctx.invoices == WithCartFlag(old(ctx.invoices), invoiceId, false) && ctx.companies == old(ctx.companies)
    ensures ctx.Valid()
  {
    var found := FindById(ctx.invoices, invoiceId);
    if found.Some? {
      var invoice := new Invoice.Load(found.value);
      invoice.RemoveFromCart();
      StoredInvoiceHasCompany(ctx.companies, ctx.invoices, found.value);
      ctx.UpdateInvoice(invoice.Row());
    }
  }

  /** A stored invoice's company is stored (the foreign key, for one row). */
  lemma StoredInvoiceHasCompany(companies: map<Guid, CompanyRow>, rows: seq<InvoiceRow>, x: InvoiceRow)
    requires ValidStore(companies, rows) && x in rows
    ensures x.companyId in companies
  {
    var k :| 0 <= k < |rows| && rows[k] == x;
  }

  /** What one invoice contributes to a company's cart total. */
  function CartShare(x: InvoiceRow, companyId: Guid): real
  {
    if x.companyId == companyId && x.inCart then x.amount else 0.0
  }

  lemma {:induction false} ReplaceByIdAbsent(rows: seq<InvoiceRow>, row: InvoiceRow)
    requires forall x :: x in rows ==> x.id != row.id
    ensures ReplaceById(rows, row) == rows
  {
    if rows != [] {
      ReplaceByIdAbsent(rows[1..], row);
    }
  }

  /** The in-cart total of a non-empty table: the first row's share plus the rest's total. */
  lemma InCartSumSplit(rows: seq<InvoiceRow>, companyId: Guid)
    requires rows != []
    ensures SumAmounts(InCartOf(rows, companyId)) == CartShare(rows[0], companyId) + SumAmounts(InCartOf(rows[1..], companyId))
  {
    if rows[0].companyId == companyId && rows[0].inCart {
      assert InCartOf(rows, companyId) == [rows[0]] + InCartOf(rows[1..], companyId);
      assert ([rows[0]] + InCartOf(rows[1..], companyId))[1..] == InCartOf(rows[1..], companyId);
    } else {
      assert InCartOf(rows, companyId) == [] + InCartOf(rows[1..], companyId) == InCartOf(rows[1..], companyId);
    }
  }

  /** The tail of a table with unique ids has unique ids, none of them the head's. */
  lemma UniqueIdsTail(rows: seq<InvoiceRow>)
    requires UniqueIds(rows) && rows != []
    ensures UniqueIds(rows[1..])
    ensures forall x :: x in rows[1..] ==> x.id != rows[0].id
  {
    var rest := rows[1..];
    forall i, j | 0 <= i < j < |rest|
      ensures rest[i].id != rest[j].id
    {
      assert rows[i + 1] == rest[i] && rows[j + 1] == rest[j];
    }
    forall x | x in rest
      ensures x.id != rows[0].id
    {
      var j :| 0 <= j < |rest| && rest[j] == x;
      assert rows[j + 1] == x;
    }
  }

  /**
   * Replacing the stored invoice `previous` by `row` (same id) moves the company's in-cart total by
   * the difference of their shares.
   */
  lemma {:induction false} TotalAfterReplace(rows: seq<InvoiceRow>, previous: InvoiceRow, row: InvoiceRow, companyId: Guid)
    requires UniqueIds(rows) && FindById(rows, row.id) == Some(previous)
    ensures SumAmounts(InCartOf(ReplaceById(rows, row), companyId))
      == SumAmounts(InCartOf(rows, companyId)) - CartShare(previous, companyId) + CartShare(row, companyId)
  {
    var rest := rows[1..];
    var r := ReplaceById(rows, row);
    assert r[0] == (if rows[0].id == row.id then row else rows[0]);
    assert r[1..] == ReplaceById(rest, row);
    InCartSumSplit(r, companyId);
    InCartSumSplit(rows, companyId);
    UniqueIdsTail(rows);
    if rows[0].id == row.id {
      ReplaceByIdAbsent(rest, row);
    } else {
      assert FindById(rest, row.id) == Some(previous);
      TotalAfterReplace(rest, previous, row, companyId);
    }
  }

  /** The helper of the two flag lemmas below: the total after a flag change, for every company. */
  lemma TotalAfterFlag(rows: seq<InvoiceRow>, invoiceId: Guid, flag: bool, companyId: Guid)
    requires UniqueIds(rows) && FindById(rows, invoiceId).Some?
    ensures var x := FindById(rows, invoiceId).value;
      GetCartTotal(WithCartFlag(rows, invoiceId, flag), companyId)
        == GetCartTotal(rows, companyId) - CartShare(x, companyId) + CartShare(x.(inCart := flag), companyId)
  {
    var x := FindById(rows, invoiceId).value;
    TotalAfterReplace(rows, x, x.(inCart := flag), companyId);
  }

  /**
   * Adding an invoice that is not in the cart raises its company's total by its amount and leaves
   * every other company's total as it was.
   */
  lemma TotalAfterAdd(rows: seq<InvoiceRow>, invoiceId: Guid, companyId: Guid)
    requires UniqueIds(rows) && FindById(rows, invoiceId).Some? && !FindById(rows, invoiceId).value.inCart
    ensures var x := FindById(rows, invoiceId).value;
      GetCartTotal(WithCartFlag(rows, invoiceId, true), companyId)
        == GetCartTotal(rows, companyId) + (if x.companyId == companyId then x.amount else 0.0)
  {
    TotalAfterFlag(rows, invoiceId, true, companyId);
  }

  /** Removing an invoice that is in the cart lowers its company's total by its amount and nothing else. */
  lemma TotalAfterRemove(rows: seq<InvoiceRow>, invoiceId: Guid, companyId: Guid)
    requires UniqueIds(rows) && FindById(rows, invoiceId).Some? && FindById(rows, invoiceId).value.inCart
    ensures var x := FindById(rows, invoiceId).value;
      GetCartTotal(WithCartFlag(rows, invoiceId, false), companyId)
        == GetCartTotal(rows, companyId) - (if x.companyId == companyId then x.amount else 0.0)
  {
    TotalAfterFlag(rows, invoiceId, false, companyId);
  }

  /**
   * Setting the flag changes only the target invoice: its flag is the new one, every other id finds
   * what it found before, and an unknown id leaves the table as it was.
   */
  lemma FlagChangesOnlyTarget(rows: seq<InvoiceRow>, invoiceId: Guid, flag: bool, other: Guid)
    requires UniqueIds(rows)
    ensures UniqueIds(WithCartFlag(rows, invoiceId, flag))
    ensures FindById(rows, invoiceId).None? ==> WithCartFlag(rows, invoiceId, flag) == rows
    ensures FindById(rows, invoiceId).Some? ==>
      FindById(WithCartFlag(rows, invoiceId, flag), invoiceId) == Some(FindById(rows, invoiceId).value.(inCart := flag))
    ensures other != invoiceId ==> FindById(WithCartFlag(rows, invoiceId, flag), other) == FindById(rows, other)
    ensures IsInvoiceInCart(WithCartFlag(rows, invoiceId, flag), invoiceId) == (flag && FindById(rows, invoiceId).Some?)
  {
    if FindById(rows, invoiceId).Some? {
      var x := FindById(rows, invoiceId).value;
      ReplaceByIdLookups(rows, x.(inCart := flag), other);
    }
  }

  /** Adding an invoice that was not in the cart and then removing it restores the table. */
  lemma AddThenRemoveRestores(rows: seq<InvoiceRow>, invoiceId: Guid)
    requires UniqueIds(rows) && FindById(rows, invoiceId).Some? && !FindById(rows, invoiceId).value.inCart
    ensures WithCartFlag(WithCartFlag(rows, invoiceId, true), invoiceId, false) == rows
  {
    var x := FindById(rows, invoiceId).value;
    var added := WithCartFlag(rows, invoiceId, true);
    FlagChangesOnlyTarget(rows, invoiceId, true, invoiceId);
    var back := ReplaceById(added, x);
    assert WithCartFlag(added, invoiceId, false) == back;
    forall i | 0 <= i < |rows|
      ensures back[i] == rows[i]
    {
      ReplaceByIdPointwise(rows, x.(inCart := true), i);
      ReplaceByIdPointwise(added, x, i);
      if rows[i].id == invoiceId {
        FindByIdIsTheRowWithThatId(rows, rows[i]);
      }
    }
  }

  /** The central invariant: no company's in-cart total exceeds its credit limit. */
  predicate CartsWithinLimits(companies: map<Guid, CompanyRow>, rows: seq<InvoiceRow>)
  {
    forall companyId :: companyId in companies ==> GetCartTotal(rows, companyId) <= companies[companyId].creditLimit
  }
}
