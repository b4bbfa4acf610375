/**
 * The quotation handlers of controllers/quotationController.js: `create`
 * issues the next number and stores the body, `update` merges the body,
 * `remove` deletes. Neither handler computes any figure.
 */
module QuotationController {
  import opened Wrappers
  import opened Table
  import opened Numbering
  import opened QuotationModel
  import SubDocuments

  const ValidationFailed: string := "Quotation validation failed"
  const DuplicateKey: string := "E11000 duplicate key error"
  const Deleted: string := "Deleted"

  /** The number of the most recently created quotation. */
  function LastNumber(rows: seq<Row<Quotation>>): Option<string> {
    if rows == [] then None else rows[|rows| - 1].doc.quotationNumber
  }

  /** A quotation at a position other than `except` already has the number `n`. */
  predicate NumberTaken(rows: seq<Row<Quotation>>, n: Option<string>, except: int) {
    exists j :: 0 <= j < |rows| && j != except && rows[j].doc.quotationNumber == n
  }

  /** The document `create` builds: the body as given, with the issued number in place of the client's. */
  function Issued(b: QuotationBody, number: string): Quotation {
    FromBody(b).(quotationNumber := Some(number))
  }

  /** The client's number is ignored on create; its figures are kept as sent, on create and on update alike. */
  lemma FiguresAsGiven(q: Quotation, b: QuotationBody, number: string)
    ensures Issued(b, number) == Issued(b.(quotationNumber := None), number)
    ensures Issued(b, number).quotationNumber == Some(number)
    ensures var c := Issued(b, number); c.subTotal == b.subTotal && c.tax == b.tax && c.total == b.total
    ensures var u := Merged(q, b);
      && u.subTotal == (if b.subTotal.Some? then b.subTotal else q.subTotal)
      && u.tax == (if b.tax.Some? then b.tax else q.tax)
      && u.total == (if b.total.Some? then b.total else q.total)
  {
  }

  /** An issued number is never empty, so `create` fails validation only for a missing business or a bad follow-up. */
  lemma IssuedNumberGiven(b: QuotationBody, last: Option<string>)
    ensures var q := Issued(b, NextQuotationNumber(last));
      WellFormed(q) <==> q.businessId.Some? && forall k :: 0 <= k < |q.followUps| ==> SubDocuments.FollowUpWellFormed(q.followUps[k])
  {
  }

  /** `create`: issue the next number, validate and store. */
  method Create(quotations: Collection<Quotation>, body: QuotationBody) returns (r: Response<Row<Quotation>>)
    requires quotations.Valid() && NumbersUnique(quotations.rows)
    modifies quotations
    ensures quotations.Valid() && NumbersUnique(quotations.rows)
    ensures
      var doc := Issued(body, NextQuotationNumber(LastNumber(old(quotations.rows))));
      if !WellFormed(doc) then
        r == BadRequest(ValidationFailed) && quotations.rows == old(quotations.rows)
      else if NumberTaken(old(quotations.rows), doc.quotationNumber, -1) then
        r == BadRequest(DuplicateKey) && quotations.rows == old(quotations.rows)
      else
        && r.Ok? && r.value.doc == doc
        && r.value.id !in Ids(old(quotations.rows))
        && quotations.rows == old(quotations.rows) + [r.value]
  {
    var doc := Issued(body, NextQuotationNumber(LastNumber(quotations.rows)));
    if !WellFormed(doc) {
      return BadRequest(ValidationFailed);
    }
    if NumberTaken(quotations.rows, doc.quotationNumber, -1) {
      return BadRequest(DuplicateKey);
    }
    var id := quotations.Insert(doc);
    r := Ok(Row(id, doc));
  }

  /** `update`: the body merged in as given (no validators run); a missing quotation answers null. */
  method Update(quotations: Collection<Quotation>, id: Id, body: QuotationBody) returns (r: Response<Option<Row<Quotation>>>)
    requires quotations.Valid() && NumbersUnique(quotations.rows)
    modifies quotations
    ensures quotations.Valid() && NumbersUnique(quotations.rows)
    ensures match Find(old(quotations.rows), id)
      case None => r == Ok(None) && quotations.rows == old(quotations.rows)
      case Some(i) =>
        var doc := Merged(old(quotations.rows)[i].doc, body);
        if NumberTaken(old(quotations.rows), doc.quotationNumber, i) then
          r == BadRequest(DuplicateKey) && quotations.rows == old(quotations.rows)
        else
          r == Ok(Some(Row(id, doc))) && quotations.rows == old(quotations.rows)[i := Row(id, doc)]
  {
    match Find(quotations.rows, id)
    case None =>
      r := Ok(None);
    case Some(i) =>
      var doc := Merged(quotations.rows[i].doc, body);
      if NumberTaken(quotations.rows, doc.quotationNumber, i) {
        return BadRequest(DuplicateKey);
      }
      quotations.Put(i, doc);
      r := Ok(Some(Row(id, doc)));
  }

  /** `remove`: deletes the quotation if there is one, and answers "Deleted" either way. */
  method Remove(quotations: Collection<Quotation>, id: Id) returns (r: Response<string>)
    requires quotations.Valid() && NumbersUnique(quotations.rows)
    modifies quotations
    ensures quotations.Valid() && NumbersUnique(quotations.rows)
    ensures r == Ok(Deleted)
    ensures match Find(old(quotations.rows), id)
      case None => quotations.rows == old(quotations.rows)
      case Some(i) => quotations.rows == old(quotations.rows)[..i] + old(quotations.rows)[i + 1..]
  {
    r := Ok(Deleted);
    match Find(quotations.rows, id)
    case None =>
    case Some(i) =>
      quotations.RemoveAt(i);
  }
}
