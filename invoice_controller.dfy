/**
 * The invoice handlers of controllers/invoiceController.js over the invoice
 * collection: `create` (numbering and totals), `update` (merge and totals),
 * `remove`, and the lock flag of `closeInvoice` / `unlockInvoice`.
 */
module InvoiceController {
  import opened Wrappers
  import opened Table
  import opened Numbering
  import opened InvoiceModel

  /**
   * No line leaves out its quantity or rate. A left-out field is undefined
   * and makes `quantity * rate` NaN, which Mongoose refuses to cast to the
   * Number fields; a `null` one is multiplied as 0.
   */
  predicate Priced(items: seq<Item>) {
    forall k :: 0 <= k < |items| ==> !items[k].quantity.Missing? && !items[k].rate.Missing?
  }

  /** The number JavaScript's `*` reads from a field that is present: `null` reads as 0. */
  function Operand(f: NumberField): real
    requires !f.Missing?
  {
    if f.Null? then 0.0 else f.value
  }

  function LineAmount(item: Item): real
    requires !item.quantity.Missing? && !item.rate.Missing?
  {
    Operand(item.quantity) * Operand(item.rate)
  }

  /** The handlers' `reduce`: a running sum from the first line to the last, starting at 0. */
  function SubTotal(items: seq<Item>): real
    requires Priced(items)
  {
    if items == [] then 0.0 else SubTotal(items[..|items| - 1]) + LineAmount(items[|items| - 1])
  }

  /** The same sum taken from the front, as a reference for `SubTotal`. */
  function Sum(items: seq<Item>): real
    requires Priced(items)
  {
    if items == [] then 0.0 else LineAmount(items[0]) + Sum(items[1..])
  }

  lemma {:induction false} SumAppend(a: seq<Item>, b: seq<Item>)
    requires Priced(a) && Priced(b)
    ensures Priced(a + b) && Sum(a + b) == Sum(a) + Sum(b)
  {
    if a == [] {
      assert a + b == b;
    } else {
      assert (a + b)[1..] == a[1..] + b;
      SumAppend(a[1..], b);
    }
  }

  /** The left fold and the sum from the front agree. */
  lemma {:induction false} SubTotalIsSum(items: seq<Item>)
    requires Priced(items)
    ensures SubTotal(items) == Sum(items)
  {
    if items != [] {
      var front, last := items[..|items| - 1], items[|items| - 1];
      SubTotalIsSum(front);
      SumAppend(front, [last]);
      assert front + [last] == items;
    }
  }

  /** The subtotal of two lists of lines put together is the sum of their subtotals. */
  lemma SubTotalAppend(a: seq<Item>, b: seq<Item>)
    requires Priced(a) && Priced(b)
    ensures Priced(a + b) && SubTotal(a + b) == SubTotal(a) + SubTotal(b)
  {
    SumAppend(a, b);
    SubTotalIsSum(a);
    SubTotalIsSum(b);
    SubTotalIsSum(a + b);
  }

  /** With no negative quantity or rate the subtotal is not negative. */
  lemma {:induction false} SubTotalNonNegative(items: seq<Item>)
    requires Priced(items)
    requires forall k :: 0 <= k < |items| ==> Operand(items[k].quantity) >= 0.0 && Operand(items[k].rate) >= 0.0
    ensures SubTotal(items) >= 0.0
  {
    if items != [] {
      var last := items[|items| - 1];
      SubTotalNonNegative(items[..|items| - 1]);
      assert Operand(last.quantity) * Operand(last.rate) >= 0.0;
    }
  }

  /** A line whose quantity or rate is `null` is accepted and adds nothing to the subtotal. */
  lemma NullLineAddsNothing(items: seq<Item>, line: Item)
    requires Priced(items) && !line.quantity.Missing? && !line.rate.Missing?
    requires line.quantity.Null? || line.rate.Null?
    ensures Priced(items + [line]) && SubTotal(items + [line]) == SubTotal(items)
  {
    assert (items + [line])[..|items|] == items;
  }

  /** The three figures the handlers write. */
  datatype Totals = Totals(subTotal: real, tax: real, totalAmount: real)

  const TaxRate: real := 0.18

  /** Totals of a list of lines: the sum of quantity times rate, a flat 18% tax on it, and the two added up. */
  function ComputeTotals(items: seq<Item>): (t: Totals)
    requires Priced(items)
    ensures t.subTotal == Sum(items)
    ensures t.tax == t.subTotal * 18.0 / 100.0
    ensures t.totalAmount == t.subTotal * 118.0 / 100.0
  {
    var s := SubTotal(items);
    SubTotalIsSum(items);
    Totals(s, s * TaxRate, s + s * TaxRate)
  }

  /** A body without items counts as the empty list, whose figures are all zero. */
  lemma NoItemsNoTotals()
    ensures ComputeTotals([]) == Totals(0.0, 0.0, 0.0)
  {
  }

  const ValidationFailed: string := "Invoice validation failed"
  const CastFailed: string := "Cast to Number failed"
  const DuplicateKey: string := "E11000 duplicate key error"
  const Deleted: string := "Deleted"

  /** The number of the most recently created invoice (`findOne().sort({ createdAt: -1 })`). */
  function LastNumber(rows: seq<Row<Invoice>>): Option<string> {
    if rows == [] then None else rows[|rows| - 1].doc.invoiceNumber
  }

  /** An invoice at a position other than `except` already has the number `n`. */
  predicate NumberTaken(rows: seq<Row<Invoice>>, n: Option<string>, except: int) {
    n.Some? && exists j :: 0 <= j < |rows| && j != except && rows[j].doc.invoiceNumber == n
  }

  /** The document `create` builds: the body, with the issued number and the computed figures in place of the client's. */
  function Issued(b: InvoiceBody, number: string, t: Totals): Invoice {
    FromBody(b).(invoiceNumber := Some(number), subTotal := Some(t.subTotal), tax := Some(t.tax), totalAmount := Some(t.totalAmount))
  }

  /** The document `update` writes: the body merged in, with the computed figures in place of the client's. */
  function Revised(inv: Invoice, b: InvoiceBody, t: Totals): Invoice {
    Merged(inv, b).(subTotal := Some(t.subTotal), tax := Some(t.tax), totalAmount := Some(t.totalAmount))
  }

  /** Whatever number and figures the client sends, the handlers write their own. */
  lemma ClientFiguresIgnored(inv: Invoice, b: InvoiceBody, number: string, t: Totals)
    ensures var plain := b.(invoiceNumber := None, subTotal := None, tax := None, totalAmount := None);
      && Issued(b, number, t) == Issued(plain, number, t)
      && Revised(inv, b, t) == Revised(inv, b.(subTotal := None, tax := None, totalAmount := None), t)
    ensures Issued(b, number, t).invoiceNumber == Some(number)
    ensures Revised(inv, b, t).subTotal == Some(t.subTotal) && Revised(inv, b, t).totalAmount == Some(t.totalAmount)
  {
  }

  /** An update whose body has no items keeps the stored items but writes zero figures. */
  lemma UpdateWithoutItemsZeroesTotals(inv: Invoice, b: InvoiceBody)
    requires b.items.None?
    ensures var d := Revised(inv, b, ComputeTotals(b.items.GetOr([])));
      && d.items == inv.items
      && d.subTotal == Some(0.0) && d.tax == Some(0.0) && d.totalAmount == Some(0.0)
  {
    NoItemsNoTotals();
  }

  /** `update` does not look at the lock: a closed invoice is revised like an open one, and stays closed unless the body says otherwise. */
  lemma UpdateIgnoresLock(inv: Invoice, b: InvoiceBody, t: Totals, closed: bool)
    ensures Revised(inv.(isClosed := closed), b, t) == Revised(inv, b, t).(isClosed := b.isClosed.GetOr(closed))
  {
  }

  /** `create`: issue the next number, compute the figures, validate and store. */
  method Create(invoices: Collection<Invoice>, body: InvoiceBody) returns (r: Response<Row<Invoice>>)
    requires invoices.Valid() && NumbersUnique(invoices.rows)
    modifies invoices
    ensures invoices.Valid() && NumbersUnique(invoices.rows)
    ensures
      var number := NextInvoiceNumber(LastNumber(old(invoices.rows)));
      var items := body.items.GetOr([]);
      if !Priced(items) || !WellFormed(Issued(body, number, ComputeTotals(items))) then
        r == BadRequest(ValidationFailed) && invoices.rows == old(invoices.rows)
      else if NumberTaken(old(invoices.rows), Some(number), -1) then
        r == BadRequest(DuplicateKey) && invoices.rows == old(invoices.rows)
      else
        && r.Ok? && r.value.doc == Issued(body, number, ComputeTotals(items))
        && r.value.id !in Ids(old(invoices.rows))
        && invoices.rows == old(invoices.rows) + [r.value]
  {
    var number := NextInvoiceNumber(LastNumber(invoices.rows));
    var items := body.items.GetOr([]);
    if !Priced(items) {
      return BadRequest(ValidationFailed);
    }
    var doc := Issued(body, number, ComputeTotals(items));
    if !WellFormed(doc) {
      return BadRequest(ValidationFailed);
    }
    if NumberTaken(invoices.rows, Some(number), -1) {
      return BadRequest(DuplicateKey);
    }
    var id := invoices.Insert(doc);
    r := Ok(Row(id, doc));
  }

  /** `update`: figures from the body's items (none means zero), the body merged in; a missing invoice answers null. */
  method Update(invoices: Collection<Invoice>, id: Id, body: InvoiceBody) returns (r: Response<Option<Row<Invoice>>>)
    requires invoices.Valid() && NumbersUnique(invoices.rows)
    modifies invoices
    ensures invoices.Valid() && NumbersUnique(invoices.rows)
    ensures
      var items := body.items.GetOr([]);
      if !Priced(items) then
        r == BadRequest(CastFailed) && invoices.rows == old(invoices.rows)
      else match Find(old(invoices.rows), id)
        case None => r == Ok(None) && invoices.rows == old(invoices.rows)
        case Some(i) =>
          var doc := Revised(old(invoices.rows)[i].doc, body, ComputeTotals(items));
          if NumberTaken(old(invoices.rows), doc.invoiceNumber, i) then
            r == BadRequest(DuplicateKey) && invoices.rows == old(invoices.rows)
          else
            r == Ok(Some(Row(id, doc))) && invoices.rows == old(invoices.rows)[i := Row(id, doc)]
  {
    var items := body.items.GetOr([]);
    if !Priced(items) {
      return BadRequest(CastFailed);
    }
    var t := ComputeTotals(items);
    match Find(invoices.rows, id)
    case None =>
      r := Ok(None);
    case Some(i) =>
      var doc := Revised(invoices.rows[i].doc, body, t);
      if NumberTaken(invoices.rows, doc.invoiceNumber, i) {
        return BadRequest(DuplicateKey);
      }
      invoices.Put(i, doc);
      r := Ok(Some(Row(id, doc)));
  }

  /** `remove`: deletes the invoice if there is one, and answers "Deleted" either way. */
  method Remove(invoices: Collection<Invoice>, id: Id) returns (r: Response<string>)
    requires invoices.Valid() && NumbersUnique(invoices.rows)
    modifies invoices
    ensures invoices.Valid() && NumbersUnique(invoices.rows)
    ensures r == Ok(Deleted)
    ensures match Find(old(invoices.rows), id)
      case None => invoices.rows == old(invoices.rows)
      case Some(i) => invoices.rows == old(invoices.rows)[..i] + old(invoices.rows)[i + 1..]
  {
    r := Ok(Deleted);
    match Find(invoices.rows, id)
    case None =>
    case Some(i) =>
      invoices.RemoveAt(i);
  }

  /** The collection after setting the lock flag of invoice `id` to `closed`; every other field and invoice stays. */
  function WithLock(rows: seq<Row<Invoice>>, id: Id, closed: bool): (r: seq<Row<Invoice>>)
    ensures |r| == |rows|
    ensures forall k :: 0 <= k < |rows| ==> r[k].id == rows[k].id && r[k].doc.(isClosed := rows[k].doc.isClosed) == rows[k].doc
    ensures forall k :: 0 <= k < |rows| ==> r[k].doc.isClosed == if rows[k].id == id && Find(rows, id) == Some(k) then closed else rows[k].doc.isClosed
  {
    match Find(rows, id)
    case None => rows
    case Some(i) => rows[i := Row(id, rows[i].doc.(isClosed := closed))]
  }

  /** Closing (or unlocking) twice is closing (or unlocking) once. */
  lemma LockIdempotent(rows: seq<Row<Invoice>>, id: Id, closed: bool)
    ensures WithLock(WithLock(rows, id, closed), id, closed) == WithLock(rows, id, closed)
  {
    FindSameIds(rows, WithLock(rows, id, closed), id);
  }

  /** Only the last of two lock changes matters. */
  lemma LockLastWins(rows: seq<Row<Invoice>>, id: Id, first: bool, second: bool)
    ensures WithLock(WithLock(rows, id, first), id, second) == WithLock(rows, id, second)
  {
    FindSameIds(rows, WithLock(rows, id, first), id);
  }

  /** Closing an open invoice and unlocking it again gives back the collection. */
  lemma CloseThenUnlock(rows: seq<Row<Invoice>>, id: Id)
    requires forall k :: 0 <= k < |rows| && rows[k].id == id ==> !rows[k].doc.isClosed
    ensures WithLock(WithLock(rows, id, true), id, false) == rows
  {
    FindSameIds(rows, WithLock(rows, id, true), id);
  }

  /** What the lock handlers answer: the updated invoice, or null when there is none. */
  function LockAnswer(rows: seq<Row<Invoice>>, id: Id): Option<Row<Invoice>> {
    match Find(rows, id)
    case None => None
    case Some(i) => Some(rows[i])
  }

  method SetLock(invoices: Collection<Invoice>, id: Id, closed: bool) returns (r: Response<Option<Row<Invoice>>>)
    requires invoices.Valid() && NumbersUnique(invoices.rows)
    modifies invoices
    ensures invoices.Valid() && NumbersUnique(invoices.rows)
    ensures invoices.rows == WithLock(old(invoices.rows), id, closed)
    ensures r == Ok(LockAnswer(invoices.rows, id))
  {
    FindSameIds(invoices.rows, WithLock(invoices.rows, id, closed), id);
    match Find(invoices.rows, id)
    case None =>
      r := Ok(None);
    case Some(i) =>
      invoices.Put(i, invoices.rows[i].doc.(isClosed := closed));
      r := Ok(Some(invoices.rows[i]));
  }

  /** `closeInvoice`. */
  method Close(invoices: Collection<Invoice>, id: Id) returns (r: Response<Option<Row<Invoice>>>)
    requires invoices.Valid() && NumbersUnique(invoices.rows)
    modifies invoices
    ensures invoices.Valid() && NumbersUnique(invoices.rows)
    ensures invoices.rows == WithLock(old(invoices.rows), id, true)
    ensures r == Ok(LockAnswer(invoices.rows, id))
  {
    r := SetLock(invoices, id, true);
  }

  /** `unlockInvoice`. */
  method Unlock(invoices: Collection<Invoice>, id: Id) returns (r: Response<Option<Row<Invoice>>>)
    requires invoices.Valid() && NumbersUnique(invoices.rows)
    modifies invoices
    ensures invoices.Valid() && NumbersUnique(invoices.rows)
    ensures invoices.rows == WithLock(old(invoices.rows), id, false)
    ensures r == Ok(LockAnswer(invoices.rows, id))
  {
    r := SetLock(invoices, id, false);
  }
}
