/** The invoice entity (Invoice): identity, owning company, editable data and the cart flag. */
module InvoiceEntity {
  import opened Common

  /** The stored columns of an invoice. */
  datatype InvoiceRow = InvoiceRow(
    id: Guid, companyId: Guid, number: string, amount: real, dueDate: DateTime, inCart: bool)

  class Invoice {
    var id: Guid
    var companyId: Guid
    var number: string
    var amount: real
    var dueDate: DateTime
    var inCart: bool

    /** The entity's current column values. */
    function Row(): InvoiceRow
      reads this
    {
      InvoiceRow(id, companyId, number, amount, dueDate, inCart)
    }

    /** The public constructor: a new invoice is never in a cart. `id` is the Guid.NewGuid() initializer. */
    constructor (id: Guid, companyId: Guid, number: string, amount: real, dueDate: DateTime)
      ensures Row() == InvoiceRow(id, companyId, number, amount, dueDate, false)
      ensures !inCart
    {
      this.id := id;
      this.companyId := companyId;
      this.number := number;
      this.amount := amount;
      this.dueDate := dueDate;
      this.inCart := false;
    }

    /** Materialisation of a stored row through the private parameterless constructor. */
    constructor Load(row: InvoiceRow)
      ensures Row() == row
    {
      id := row.id;
      companyId := row.companyId;
      number := row.number;
      amount := row.amount;
      dueDate := row.dueDate;
      inCart := row.inCart;
    }

    /** Update: replaces number, amount and due date; identity, owner and cart flag stay. */
    method Update(number: string, amount: real, dueDate: DateTime)
      modifies this`number, this`amount, this`dueDate
      ensures Row() == old(Row()).(number := number, amount := amount, dueDate := dueDate)
      ensures id == old(id) && companyId == old(companyId) && inCart == old(inCart)
    {
      this.number := number;
      this.amount := amount;
      this.dueDate := dueDate;
    }

    /** AddToCart: sets the flag and nothing else; on an invoice already in the cart it changes nothing. */
    method AddToCart()
      modifies this`inCart
      ensures inCart
      ensures Row() == old(Row()).(inCart := true)
      ensures old(inCart) ==> Row() == old(Row())
    {
      inCart := true;
    }

    /** RemoveFromCart: clears the flag and nothing else; on an invoice not in the cart it changes nothing. */
    method RemoveFromCart()
      modifies this`inCart
      ensures !inCart
      ensures Row() == old(Row()).(inCart := false)
      ensures !old(inCart) ==> Row() == old(Row())
    {
      inCart := false;
    }
  }
}
