/**
 * The quotation record (models/Quotation.js): items whose GST percentage
 * defaults to 18, the optional GST breakdown with its defaults, the status
 * enumeration, and the required, unique quotation number.
 */
module QuotationModel {
  import opened Wrappers
  import opened Table
  import opened SubDocuments

  datatype QuotationStatus = Draft | Pending | Approved | Rejected

  const DefaultItemGst: real := 18.0

  /** A stored line of `items`. */
  datatype QuotationItem = QuotationItem(
    productId: Option<Id>,
    productName: Option<string>,
    description: Option<string>,
    hsnSac: Option<string>,
    quantity: Option<real>,
    quantityType: Option<string>,
    rate: Option<real>,
    specifications: seq<Specification>,
    gstPercentage: real)

  /** A line as the client sends it. */
  datatype ItemBody = ItemBody(
    productId: Option<Id>,
    productName: Option<string>,
    description: Option<string>,
    hsnSac: Option<string>,
    quantity: Option<real>,
    quantityType: Option<string>,
    rate: Option<real>,
    specifications: Option<seq<Specification>>,
    gstPercentage: Option<real>)

  /** Casting a line: an absent GST percentage becomes 18. */
  function ItemFromBody(b: ItemBody): QuotationItem {
    QuotationItem(b.productId, b.productName, b.description, b.hsnSac, b.quantity, b.quantityType, b.rate,
      b.specifications.GetOr([]), b.gstPercentage.GetOr(DefaultItemGst))
  }

  function ItemsFromBody(bs: seq<ItemBody>): (items: seq<QuotationItem>)
    ensures |items| == |bs|
    ensures forall k :: 0 <= k < |bs| ==> items[k] == ItemFromBody(bs[k])
  {
    seq(|bs|, k requires 0 <= k < |bs| => ItemFromBody(bs[k]))
  }

  /** The stored GST breakdown. */
  datatype GstDetails = GstDetails(
    sgst: real,
    cgst: real,
    igst: real,
    calculatedTotalGst: real,
    manualGstAmount: Option<real>,
    manualSgstPercentage: Option<real>,
    manualCgstPercentage: Option<real>,
    finalTaxAmountUsed: real)

  datatype GstDetailsBody = GstDetailsBody(
    sgst: Option<real>,
    cgst: Option<real>,
    igst: Option<real>,
    calculatedTotalGst: Option<real>,
    manualGstAmount: Option<real>,
    manualSgstPercentage: Option<real>,
    manualCgstPercentage: Option<real>,
    finalTaxAmountUsed: Option<real>)

  /** Casting a breakdown: the amounts default to 0, the manual overrides to null. */
  function GstDetailsFromBody(b: GstDetailsBody): GstDetails {
    GstDetails(b.sgst.GetOr(0.0), b.cgst.GetOr(0.0), b.igst.GetOr(0.0), b.calculatedTotalGst.GetOr(0.0),
      b.manualGstAmount, b.manualSgstPercentage, b.manualCgstPercentage, b.finalTaxAmountUsed.GetOr(0.0))
  }

  /**
   * A stored quotation. `gstType` is a free string. `details` holds the
   * plain pass-through fields (businessName, businessType, businessInfo,
   * gstin, date, validUntil, mobileNumber, customerName, customerEmail,
   * customerAddress, createdDate, pdfUrl and the terms fields from delivery
   * to customerScope); the ones that default to null are simply absent.
   */
  datatype Quotation = Quotation(
    businessId: Option<Id>,
    quotationNumber: Option<string>,
    status: QuotationStatus,
    items: seq<QuotationItem>,
    subTotal: Option<real>,
    tax: Option<real>,
    total: Option<real>,
    gstType: Option<string>,
    gstDetails: Option<GstDetails>,
    followUps: seq<FollowUp>,
    notes: seq<Note>,
    details: map<string, Scalar>)

  datatype QuotationBody = QuotationBody(
    businessId: Option<Id>,
    quotationNumber: Option<string>,
    status: Option<QuotationStatus>,
    items: Option<seq<ItemBody>>,
    subTotal: Option<real>,
    tax: Option<real>,
    total: Option<real>,
    gstType: Option<string>,
    gstDetails: Option<GstDetailsBody>,
    followUps: Option<seq<FollowUp>>,
    notes: Option<seq<Note>>,
    details: map<string, Scalar>)

  const EmptyBody: QuotationBody := QuotationBody(None, None, None, None, None, None, None, None, None, None, None, map[])

  /** What `save()` validates: a business, a non-empty number, and every follow-up. */
  predicate WellFormed(q: Quotation) {
    && q.businessId.Some?
    && q.quotationNumber.Some? && q.quotationNumber.value != ""
    && forall k :: 0 <= k < |q.followUps| ==> FollowUpWellFormed(q.followUps[k])
  }

  /** The (non-sparse) unique index on `quotationNumber`: no two quotations share a number. */
  ghost predicate NumbersUnique(rows: seq<Row<Quotation>>) {
    forall i, j :: 0 <= i < j < |rows| ==> rows[i].doc.quotationNumber != rows[j].doc.quotationNumber
  }

  function MaybeGstDetails(b: Option<GstDetailsBody>): Option<GstDetails> {
    match b
    case None => None
    case Some(g) => Some(GstDetailsFromBody(g))
  }

  /** `new Quotation(body)`: the body's fields cast, and the schema defaults for the absent ones. */
  function FromBody(b: QuotationBody): Quotation {
    Quotation(b.businessId, b.quotationNumber, b.status.GetOr(Draft), ItemsFromBody(b.items.GetOr([])),
      b.subTotal, b.tax, b.total, b.gstType, MaybeGstDetails(b.gstDetails),
      b.followUps.GetOr([]), b.notes.GetOr([]), b.details)
  }

  /** `findByIdAndUpdate(id, body)`: the fields present in the body, cast, replace the stored ones. */
  function Merged(q: Quotation, b: QuotationBody): Quotation {
    Quotation(
      if b.businessId.Some? then b.businessId else q.businessId,
      if b.quotationNumber.Some? then b.quotationNumber else q.quotationNumber,
      b.status.GetOr(q.status),
      if b.items.Some? then ItemsFromBody(b.items.value) else q.items,
      if b.subTotal.Some? then b.subTotal else q.subTotal,
      if b.tax.Some? then b.tax else q.tax,
      if b.total.Some? then b.total else q.total,
      if b.gstType.Some? then b.gstType else q.gstType,
      if b.gstDetails.Some? then MaybeGstDetails(b.gstDetails) else q.gstDetails,
      b.followUps.GetOr(q.followUps), b.notes.GetOr(q.notes),
      q.details + b.details)
  }

  /** The document an empty body creates: status Draft, no breakdown, no lines; it lacks the required fields. */
  lemma Defaults()
    ensures var q := FromBody(EmptyBody);
      && q.status == Draft && q.gstDetails.None? && q.gstType.None?
      && q.items == [] && q.followUps == [] && q.notes == []
      && !WellFormed(q)
  {
  }

  /** A line sent without a GST percentage is stored at 18; one sent with it keeps it. */
  lemma ItemGstDefault(b: ItemBody)
    ensures ItemFromBody(b).gstPercentage == if b.gstPercentage.Some? then b.gstPercentage.value else 18.0
    ensures ItemFromBody(b).quantity == b.quantity && ItemFromBody(b).rate == b.rate
  {
  }

  /** An empty breakdown is stored as zero amounts and null overrides. */
  lemma GstDetailsDefaults()
    ensures GstDetailsFromBody(GstDetailsBody(None, None, None, None, None, None, None, None))
      == GstDetails(0.0, 0.0, 0.0, 0.0, None, None, None, 0.0)
  {
  }

  /** An update with an empty body leaves the document as it was. */
  lemma MergeEmpty(q: Quotation)
    ensures Merged(q, EmptyBody) == q
  {
    assert q.details + map[] == q.details;
  }
}
