/**
 * The database (AppDbContext): the Companies and Invoices tables with the constraints the schema
 * declares, and the three writes the core performs on them.
 */
module Persistence {
  import opened Common
  import opened InvoiceEntity
  import opened CompanyEntity
  import opened InvoiceQueries

  /**
   * The schema's constraints: companies are keyed by their id, invoice ids are unique, and every
   * invoice's CompanyId refers to a stored company (the HasForeignKey relationship).
   */
  predicate ValidStore(companies: map<Guid, CompanyRow>, invoices: seq<InvoiceRow>)
  {
    (forall id :: id in companies ==> companies[id].id == id)
    && UniqueIds(invoices)
    && (forall i :: 0 <= i < |invoices| ==> invoices[i].companyId in companies)
  }

  /** GetByCnpjAsync(cnpj) finds a company. */
  predicate CnpjTaken(companies: map<Guid, CompanyRow>, cnpj: string)
  {
    exists id :: id in companies && companies[id].cnpj == cnpj
  }

  /** DbSet.Update of an entity: the stored row with the entity's key takes its values. */
  function ReplaceById(rows: seq<InvoiceRow>, row: InvoiceRow): (r: seq<InvoiceRow>)
    ensures |r| == |rows|
  {
    if rows == [] then []
    else [if rows[0].id == row.id then row else rows[0]] + ReplaceById(rows[1..], row)
  }

  /** A row's position and id survive a replacement; only the row with that id changes. */
  lemma {:induction false} ReplaceByIdPointwise(rows: seq<InvoiceRow>, row: InvoiceRow, i: nat)
    requires i < |rows|
    ensures ReplaceById(rows, row)[i] == (if rows[i].id == row.id then row else rows[i])
  {
    if i > 0 {
      ReplaceByIdPointwise(rows[1..], row, i - 1);
    }
  }

  /** Every position at once: only rows with the replaced id change, and ids stay where they were. */
  lemma ReplaceByIdShape(rows: seq<InvoiceRow>, row: InvoiceRow)
    ensures forall i :: 0 <= i < |rows| ==> ReplaceById(rows, row)[i] == (if rows[i].id == row.id then row else rows[i])
    ensures forall i :: 0 <= i < |rows| ==> ReplaceById(rows, row)[i].id == rows[i].id
  {
    forall i | 0 <= i < |rows|
      ensures ReplaceById(rows, row)[i] == (if rows[i].id == row.id then row else rows[i])
    {
      ReplaceByIdPointwise(rows, row, i);
    }
  }

  lemma ReplaceByIdKeepsUniqueIds(rows: seq<InvoiceRow>, row: InvoiceRow)
    requires UniqueIds(rows)
    ensures UniqueIds(ReplaceById(rows, row))
  {
    ReplaceByIdShape(rows, row);
  }

  lemma ReplaceByIdFindsNewRow(rows: seq<InvoiceRow>, row: InvoiceRow)
    requires UniqueIds(rows) && FindById(rows, row.id).Some?
    ensures FindById(ReplaceById(rows, row), row.id) == Some(row)
  {
    var r := ReplaceById(rows, row);
    ReplaceByIdShape(rows, row);
    ReplaceByIdKeepsUniqueIds(rows, row);
    var k := IndexOfId(rows, row.id).value;
    assert r[k] == row;
    FindByIdIsTheRowWithThatId(r, row);
  }

  lemma ReplaceByIdFindsOthers(rows: seq<InvoiceRow>, row: InvoiceRow, other: Guid)
    requires UniqueIds(rows) && other != row.id
    ensures FindById(ReplaceById(rows, row), other) == FindById(rows, other)
  {
    var r := ReplaceById(rows, row);
    ReplaceByIdShape(rows, row);
    match FindById(rows, other)
    case None =>
      assert forall x :: x in r ==> x.id != other;
    case Some(y) =>
      ReplaceByIdKeepsUniqueIds(rows, row);
      var j :| 0 <= j < |rows| && rows[j] == y;
      assert r[j] == y;
      FindByIdIsTheRowWithThatId(r, y);
  }

  /**
   * After replacing a stored invoice, looking its id up gives the new values and looking up any other
   * id gives what it gave before.
   */
  lemma ReplaceByIdLookups(rows: seq<InvoiceRow>, row: InvoiceRow, other: Guid)
    requires UniqueIds(rows) && FindById(rows, row.id).Some?
    ensures UniqueIds(ReplaceById(rows, row))
    ensures FindById(ReplaceById(rows, row), row.id) == Some(row)
    ensures other != row.id ==> FindById(ReplaceById(rows, row), other) == FindById(rows, other)
  {
    ReplaceByIdKeepsUniqueIds(rows, row);
    ReplaceByIdFindsNewRow(rows, row);
    if other != row.id {
      ReplaceByIdFindsOthers(rows, row, other);
    }
  }

  lemma ValidAfterAddCompany(companies: map<Guid, CompanyRow>, invoices: seq<InvoiceRow>, row: CompanyRow)
    requires ValidStore(companies, invoices) && row.id !in companies
    ensures ValidStore(companies[row.id := row], invoices)
  {
  }

  lemma ValidAfterAddInvoice(companies: map<Guid, CompanyRow>, invoices: seq<InvoiceRow>, row: InvoiceRow)
    requires ValidStore(companies, invoices)
    requires FindById(invoices, row.id).None? && row.companyId in companies
    ensures ValidStore(companies, invoices + [row])
  {
  }

  lemma ValidAfterReplace(companies: map<Guid, CompanyRow>, invoices: seq<InvoiceRow>, row: InvoiceRow)
    requires ValidStore(companies, invoices)
    requires FindById(invoices, row.id).Some? && row.companyId in companies
    ensures ValidStore(companies, ReplaceById(invoices, row))
  {
    ReplaceByIdLookups(invoices, row, row.id);
    forall i | 0 <= i < |invoices|
      ensures ReplaceById(invoices, row)[i].companyId in companies
    {
      ReplaceByIdPointwise(invoices, row, i);
    }
  }

  class AppDbContext {
    var companies: map<Guid, CompanyRow>
    var invoices: seq<InvoiceRow>

    predicate Valid()
      reads this
    {
      ValidStore(companies, invoices)
    }

    /** An empty database. */
    constructor ()
      ensures companies == map[] && invoices == []
      ensures Valid()
    {
      companies := map[];
      invoices := [];
    }

    /** Companies.AddAsync followed by SaveChangesAsync. */
    method AddCompany(row: CompanyRow)
      requires Valid() && row.id !in companies
      modifies this
      ensures companies == old(companies)[row.id := row] && invoices == old(invoices)
      ensures Valid()
    {
      ValidAfterAddCompany(companies, invoices, row);
      companies := companies[row.id := row];
    }

    /** Invoices.AddAsync followed by SaveChangesAsync; the new row goes to the end of the table. */
    method AddInvoice(row: InvoiceRow)
      requires Valid() && FindById(invoices, row.id).None? && row.companyId in companies
      modifies this
      ensures invoices == old(invoices) + [row] && companies == old(companies)
      ensures Valid()
    {
      ValidAfterAddInvoice(companies, invoices, row);
      invoices := invoices + [row];
    }

    /** Invoices.Update of a stored invoice followed by SaveChangesAsync. */
    method UpdateInvoice(row: InvoiceRow)
      requires Valid() && FindById(invoices, row.id).Some? && row.companyId in companies
      modifies this
      ensures invoices == ReplaceById(old(invoices), row) && companies == old(companies)
      ensures Valid()
    {
      ValidAfterReplace(companies, invoices, row);
      invoices := ReplaceById(invoices, row);
    }
  }
}
