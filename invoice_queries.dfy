/**
 * The LINQ building blocks the repositories share over the invoice table: lookup by id, the
 * in-cart filter of one company, ordering by number and summing amounts.
 */
module InvoiceQueries {
  import opened Common
  import opened InvoiceEntity

  /** Invoice.Id is the primary key: no two rows share an id. */
  predicate UniqueIds(rows: seq<InvoiceRow>)
  {
    forall i, j :: 0 <= i < j < |rows| ==> rows[i].id != rows[j].id
  }

  /** The position of the first row with this id (FirstOrDefault), if any. */
  function IndexOfId(rows: seq<InvoiceRow>, id: Guid): (r: Option<nat>)
    ensures r.Some? ==> r.value < |rows| && rows[r.value].id == id
    ensures r.Some? ==> forall k :: 0 <= k < r.value ==> rows[k].id != id
    ensures r.None? <==> forall k :: 0 <= k < |rows| ==> rows[k].id != id
  {
    if rows == [] then None
    else if rows[0].id == id then Some(0)
    else match IndexOfId(rows[1..], id)
      case None => None
      case Some(k) => Some(k + 1)
  }

  /** FirstOrDefault(i => i.Id == id): the invoice with that id, or none. */
  function FindById(rows: seq<InvoiceRow>, id: Guid): (r: Option<InvoiceRow>)
    ensures r.Some? ==> r.value in rows && r.value.id == id
    ensures r.None? <==> forall x :: x in rows ==> x.id != id
  {
    match IndexOfId(rows, id)
    case None => None
    case Some(k) => Some(rows[k])
  }

  /** With unique ids the row found is the only one with that id. */
  lemma FindByIdIsTheRowWithThatId(rows: seq<InvoiceRow>, x: InvoiceRow)
    requires UniqueIds(rows) && x in rows
    ensures FindById(rows, x.id) == Some(x)
  {
    var k := IndexOfId(rows, x.id).value;
    var j :| 0 <= j < |rows| && rows[j] == x;
    if k != j {
      assert false;
    }
  }

  /** Where(i => i.CompanyId == companyId && i.InCart), in table order. */
  function InCartOf(rows: seq<InvoiceRow>, companyId: Guid): (r: seq<InvoiceRow>)
    ensures forall x :: x in r <==> x in rows && x.companyId == companyId && x.inCart
    ensures |r| <= |rows|
  {
    if rows == [] then []
    else
      var head := if rows[0].companyId == companyId && rows[0].inCart then [rows[0]] else [];
      head + InCartOf(rows[1..], companyId)
  }

  /** With no in-cart invoice of the company the filter is empty. */
  lemma {:induction false} NothingInCartIsEmpty(rows: seq<InvoiceRow>, companyId: Guid)
    requires forall x :: x in rows ==> !(x.companyId == companyId && x.inCart)
    ensures InCartOf(rows, companyId) == []
  {
    if rows != [] {
      assert rows[0] in rows;
      assert forall x :: x in rows[1..] ==> x in rows;
      NothingInCartIsEmpty(rows[1..], companyId);
    }
  }

  /** Ordinal comparison of invoice numbers: a comes no later than b. */
  predicate NumberLe(a: string, b: string)
    decreases |a|
  {
    if |a| == 0 then true
    else if |b| == 0 then false
    else if a[0] == b[0] then NumberLe(a[1..], b[1..])
    else a[0] < b[0]
  }

  lemma {:induction false} NumberLeReflexive(a: string)
    ensures NumberLe(a, a)
    decreases |a|
  {
    if |a| > 0 {
      NumberLeReflexive(a[1..]);
    }
  }

  lemma {:induction false} NumberLeTotal(a: string, b: string)
    ensures NumberLe(a, b) || NumberLe(b, a)
    decreases |a|
  {
    if |a| > 0 && |b| > 0 && a[0] == b[0] {
      NumberLeTotal(a[1..], b[1..]);
    }
  }

  lemma {:induction false} NumberLeTransitive(a: string, b: string, c: string)
    requires NumberLe(a, b) && NumberLe(b, c)
    ensures NumberLe(a, c)
    decreases |a|
  {
    if |a| > 0 && |b| > 0 && |c| > 0 && a[0] == b[0] && b[0] == c[0] {
      NumberLeTransitive(a[1..], b[1..], c[1..]);
    }
  }

  lemma {:induction false} NumberLeAntisymmetric(a: string, b: string)
    requires NumberLe(a, b) && NumberLe(b, a)
    ensures a == b
    decreases |a|
  {
    if |a| > 0 && |b| > 0 {
      NumberLeAntisymmetric(a[1..], b[1..]);
      assert a == [a[0]] + a[1..] && b == [b[0]] + b[1..];
    }
  }

  /** Ascending by number. */
  predicate SortedByNumber(rows: seq<InvoiceRow>)
  {
    forall i, j :: 0 <= i < j < |rows| ==> NumberLe(rows[i].number, rows[j].number)
  }

  /** Places x before the first row whose number is not smaller, so equal numbers keep their order. */
  function Insert(x: InvoiceRow, rows: seq<InvoiceRow>): (r: seq<InvoiceRow>)
    ensures multiset(r) == multiset(rows) + multiset{x}
  {
    if rows == [] then [x]
    else if NumberLe(x.number, rows[0].number) then [x] + rows
    else
      assert rows == [rows[0]] + rows[1..];
      [rows[0]] + Insert(x, rows[1..])
  }

  /** OrderBy(i => i.Number), as an insertion sort. */
  function SortByNumber(rows: seq<InvoiceRow>): (r: seq<InvoiceRow>)
    ensures multiset(r) == multiset(rows)
  {
    if rows == [] then []
    else
      assert rows == [rows[0]] + rows[1..];
      Insert(rows[0], SortByNumber(rows[1..]))
  }

  lemma {:induction false} InsertSorted(x: InvoiceRow, rows: seq<InvoiceRow>)
    requires SortedByNumber(rows)
    ensures SortedByNumber(Insert(x, rows))
  {
    if rows == [] {
    } else if NumberLe(x.number, rows[0].number) {
      var r := [x] + rows;
      forall i, j | 0 <= i < j < |r|
        ensures NumberLe(r[i].number, r[j].number)
      {
        if i == 0 && j > 1 {
          NumberLeTransitive(x.number, rows[0].number, r[j].number);
        }
      }
    } else {
      NumberLeTotal(x.number, rows[0].number);
      var rest := Insert(x, rows[1..]);
      InsertSorted(x, rows[1..]);
      var r := [rows[0]] + rest;
      forall j | 0 < j < |r|
        ensures NumberLe(rows[0].number, r[j].number)
      {
        var y := r[j];
        assert y in multiset(rest);
        if y != x {
          assert y in multiset(rows[1..]);
          var k :| 0 <= k < |rows[1..]| && rows[1..][k] == y;
          assert rows[k + 1] == y;
        }
      }
    }
  }

  /** The sort yields rows in ascending number order and the same rows as its input. */
  lemma {:induction false} SortByNumberSorted(rows: seq<InvoiceRow>)
    ensures SortedByNumber(SortByNumber(rows))
    ensures multiset(SortByNumber(rows)) == multiset(rows)
  {
    if rows != [] {
      SortByNumberSorted(rows[1..]);
      InsertSorted(rows[0], SortByNumber(rows[1..]));
    }
  }

  /** Sum(i => i.Amount); zero for no rows. */
  function SumAmounts(rows: seq<InvoiceRow>): real
  {
    if rows == [] then 0.0 else rows[0].amount + SumAmounts(rows[1..])
  }

  lemma {:induction false} SumAmountsAppend(a: seq<InvoiceRow>, b: seq<InvoiceRow>)
    ensures SumAmounts(a + b) == SumAmounts(a) + SumAmounts(b)
  {
    if a != [] {
      assert (a + b)[0] == a[0] && (a + b)[1..] == a[1..] + b;
      SumAmountsAppend(a[1..], b);
    } else {
      assert a + b == b;
    }
  }

  lemma {:induction false} SumAmountsInsert(x: InvoiceRow, rows: seq<InvoiceRow>)
    ensures SumAmounts(Insert(x, rows)) == x.amount + SumAmounts(rows)
  {
    if rows != [] && !NumberLe(x.number, rows[0].number) {
      SumAmountsInsert(x, rows[1..]);
    }
  }

  /** Ordering does not change the total. */
  lemma {:induction false} SumAmountsSort(rows: seq<InvoiceRow>)
    ensures SumAmounts(SortByNumber(rows)) == SumAmounts(rows)
  {
    if rows != [] {
      SumAmountsSort(rows[1..]);
      SumAmountsInsert(rows[0], SortByNumber(rows[1..]));
    }
  }
}
