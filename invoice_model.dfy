/**
 * The invoice record (models/Invoice.js): enumerations, defaults, required
 * fields, the sparse unique invoice number, and the two ways a request body
 * becomes a stored document — built afresh with the schema defaults
 * (`new Invoice(body)`) or merged into an existing one (`findByIdAndUpdate`).
 */
module InvoiceModel {
  import opened Wrappers
  import opened Table
  import opened SubDocuments

  datatype GstType = Intrastate | Interstate

  datatype PaymentStatus = PaymentPending | PaymentPartial | PaymentPaid

  /** The `invoiceType` enumeration admits the single value 'Invoice'. */
  datatype InvoiceType = InvoiceTypeInvoice

  /** A plain optional Number field of a line: left out, written as `null`, or a number. */
  datatype NumberField = Missing | Null | Num(value: real)

  /** A line of `items`. */
  datatype Item = Item(
    productId: Option<Id>,
    productName: Option<string>,
    description: Option<string>,
    hsnSac: Option<string>,
    quantity: NumberField,
    rate: NumberField,
    specifications: seq<Specification>)

  /** An entry of `paymentHistory`; every field is optional. */
  datatype Payment = Payment(
    amount: Option<real>,
    date: Option<string>,
    paymentMethod: Option<string>,
    reference: Option<string>,
    addedBy: Option<string>)

  const DefaultTaxRate: real := 18.0
  const DefaultDiscount: real := 0.0
  const DefaultGstPercentage: real := 18.0

  /**
   * A stored invoice. `details` holds the schema's plain pass-through fields
   * (businessName, customerName, customerAddress, customerGSTIN,
   * companyGSTIN, companyName, companyAddress, contactPerson, contactNumber,
   * date, dueDate, cgstAmount, sgstAmount, igstAmount, paymentTerms) under
   * their names.
   */
  datatype Invoice = Invoice(
    invoiceNumber: Option<string>,
    businessId: Option<Id>,
    contactName: Option<string>,
    email: Option<string>,
    mobileNumber: Option<string>,
    items: seq<Item>,
    subTotal: Option<real>,
    tax: Option<real>,
    totalAmount: Option<real>,
    taxRate: real,
    discountAmount: real,
    gstType: GstType,
    gstPercentage: real,
    paymentStatus: PaymentStatus,
    paymentHistory: seq<Payment>,
    invoiceType: InvoiceType,
    notes: seq<Note>,
    isClosed: bool,
    followUps: seq<FollowUp>,
    details: map<string, Scalar>)

  /** A request body: each schema field either present or absent. */
  datatype InvoiceBody = InvoiceBody(
    invoiceNumber: Option<string>,
    businessId: Option<Id>,
    contactName: Option<string>,
    email: Option<string>,
    mobileNumber: Option<string>,
    items: Option<seq<Item>>,
    subTotal: Option<real>,
    tax: Option<real>,
    totalAmount: Option<real>,
    taxRate: Option<real>,
    discountAmount: Option<real>,
    gstType: Option<GstType>,
    gstPercentage: Option<real>,
    paymentStatus: Option<PaymentStatus>,
    paymentHistory: Option<seq<Payment>>,
    notes: Option<seq<Note>>,
    isClosed: Option<bool>,
    followUps: Option<seq<FollowUp>>,
    details: map<string, Scalar>)

  const EmptyBody: InvoiceBody := InvoiceBody(None, None, None, None, None, None, None, None, None,
    None, None, None, None, None, None, None, None, None, map[])

  /** A required string: present and not empty (Mongoose treats "" as missing). */
  predicate Given(s: Option<string>) {
    s.Some? && s.value != ""
  }

  /** What `save()` validates: the three required contact fields and every follow-up. */
  predicate WellFormed(inv: Invoice) {
    && Given(inv.contactName) && Given(inv.email) && Given(inv.mobileNumber)
    && forall k :: 0 <= k < |inv.followUps| ==> FollowUpWellFormed(inv.followUps[k])
  }

  /** The sparse unique index on `invoiceNumber`: no two invoices that have a number share it. */
  ghost predicate NumbersUnique(rows: seq<Row<Invoice>>) {
    forall i, j :: 0 <= i < j < |rows| && rows[i].doc.invoiceNumber.Some? ==>
      rows[i].doc.invoiceNumber != rows[j].doc.invoiceNumber
  }

  /** `new Invoice(body)`: the body's fields, and the schema defaults for the absent ones. */
  function FromBody(b: InvoiceBody): Invoice {
    Invoice(
      b.invoiceNumber, b.businessId, b.contactName, b.email, b.mobileNumber,
      b.items.GetOr([]), b.subTotal, b.tax, b.totalAmount,
      b.taxRate.GetOr(DefaultTaxRate), b.discountAmount.GetOr(DefaultDiscount),
      b.gstType.GetOr(Intrastate), b.gstPercentage.GetOr(DefaultGstPercentage),
      b.paymentStatus.GetOr(PaymentPending), b.paymentHistory.GetOr([]), InvoiceTypeInvoice,
      b.notes.GetOr([]), b.isClosed.GetOr(false), b.followUps.GetOr([]), b.details)
  }

  /** `findByIdAndUpdate(id, body)`: the fields present in the body replace the stored ones; the absent ones stay. */
  function Merged(inv: Invoice, b: InvoiceBody): Invoice {
    Invoice(
      if b.invoiceNumber.Some? then b.invoiceNumber else inv.invoiceNumber,
      if b.businessId.Some? then b.businessId else inv.businessId,
      if b.contactName.Some? then b.contactName else inv.contactName,
      if b.email.Some? then b.email else inv.email,
      if b.mobileNumber.Some? then b.mobileNumber else inv.mobileNumber,
      b.items.GetOr(inv.items),
      if b.subTotal.Some? then b.subTotal else inv.subTotal,
      if b.tax.Some? then b.tax else inv.tax,
      if b.totalAmount.Some? then b.totalAmount else inv.totalAmount,
      b.taxRate.GetOr(inv.taxRate), b.discountAmount.GetOr(inv.discountAmount),
      b.gstType.GetOr(inv.gstType), b.gstPercentage.GetOr(inv.gstPercentage),
      b.paymentStatus.GetOr(inv.paymentStatus), b.paymentHistory.GetOr(inv.paymentHistory), inv.invoiceType,
      b.notes.GetOr(inv.notes), b.isClosed.GetOr(inv.isClosed), b.followUps.GetOr(inv.followUps),
      inv.details + b.details)
  }

  /** The document an empty body creates carries every schema default. */
  lemma Defaults()
    ensures var inv := FromBody(EmptyBody);
      && inv.taxRate == 18.0 && inv.gstPercentage == 18.0 && inv.discountAmount == 0.0
      && inv.gstType == Intrastate && inv.paymentStatus == PaymentPending
      && inv.invoiceType == InvoiceTypeInvoice && !inv.isClosed
      && inv.items == [] && inv.notes == [] && inv.followUps == [] && inv.paymentHistory == []
      && inv.invoiceNumber.None? && !WellFormed(inv)
  {
  }

  /** Creating from a body is merging that body into the defaults document. */
  lemma CreateIsMergeIntoDefaults(b: InvoiceBody)
    ensures FromBody(b) == Merged(FromBody(EmptyBody), b)
  {
    assert map[] + b.details == b.details;
  }

  /** An update with an empty body leaves the document as it was. */
  lemma MergeEmpty(inv: Invoice)
    ensures Merged(inv, EmptyBody) == inv
  {
    assert inv.details + map[] == inv.details;
  }

  /** Applying the same update twice is applying it once. */
  lemma MergeIdempotent(inv: Invoice, b: InvoiceBody)
    ensures Merged(Merged(inv, b), b) == Merged(inv, b)
  {
    assert inv.details + b.details + b.details == inv.details + b.details;
  }
}
