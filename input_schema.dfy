/**
 * The request schemas that the RPC layer checks before a handler runs. Each
 * schema is a predicate over the parsed input; defaults the schema fills in are
 * functions. Amounts are fixed-point integers (cents for money, thousandths for
 * quantities); the format check of e-mail addresses is a parameter `isEmail`,
 * since the address grammar is outside this model.
 */
module InputSchema {
  import opened Wrappers
  import opened DbSchema

  /** A status label parsed by the `z.enum` of the four statuses. */
  function ParseStatus(text: string): (r: Option<Status>)
    ensures r.Some? ==> StatusLabel(r.value) == text
    ensures (exists s :: StatusLabel(s) == text) ==> r.Some?
  {
    if text == "pending" then Some(Pending)
    else if text == "processed" then Some(Processed)
    else if text == "paid" then Some(Paid)
    else if text == "overdue" then Some(Overdue)
    else None
  }

  lemma StatusLabelRoundTrip(s: Status)
    ensures ParseStatus(StatusLabel(s)) == Some(s)
  {
  }

  /** The proposed vendor of a new invoice; `None` stands for both absent and null. */
  datatype VendorInput = VendorInput(
    name: string,
    address: Option<string>,
    email: Option<string>,
    phone: Option<string>)

  datatype LineItemInput = LineItemInput(
    description: string,
    quantity: int,
    unitPrice: int,
    totalPrice: int)

  datatype CreateInvoiceInput = CreateInvoiceInput(
    invoiceNumber: string,
    vendor: VendorInput,
    invoiceDate: Timestamp,
    dueDate: Option<Timestamp>,
    totalAmount: int,
    status: Option<Status>,
    filePath: Option<string>,
    originalFilename: Option<string>,
    lineItems: seq<LineItemInput>)

  /**
   * A merge patch: `None` is an absent field. `dueDate` has three states:
   * absent (`None`), explicitly null (`Some(None)`) and a date (`Some(Some(d))`).
   */
  datatype UpdateInvoiceInput = UpdateInvoiceInput(
    id: int,
    invoiceNumber: Option<string>,
    invoiceDate: Option<Timestamp>,
    dueDate: Option<Option<Timestamp>>,
    totalAmount: Option<int>,
    status: Option<Status>)

  /** A list query as sent, before defaults are filled in. */
  datatype RawInvoicesQuery = RawInvoicesQuery(
    status: Option<Status>,
    vendorId: Option<int>,
    limit: Option<int>,
    offset: Option<int>)

  /** A list query after the schema has filled in its defaults. */
  datatype InvoicesQuery = InvoicesQuery(
    status: Option<Status>,
    vendorId: Option<int>,
    limit: int,
    offset: int)

  /** `fileData` is the base64 text; decoding it is outside the model. */
  datatype UploadInvoiceInput = UploadInvoiceInput(
    filename: string,
    contentType: string,
    fileData: string)

  // createVendorInputSchema
  predicate ValidVendorInput(v: VendorInput, isEmail: string -> bool) {
    && v.name != ""
    && (v.email.Some? ==> isEmail(v.email.value))
  }

  // createLineItemInputSchema: the total is not checked against quantity * unit price
  predicate ValidLineItemInput(li: LineItemInput) {
    && li.description != ""
    && li.quantity > 0
    && li.unitPrice > 0
    && li.totalPrice > 0
  }

  // createInvoiceInputSchema
  predicate ValidCreateInvoiceInput(c: CreateInvoiceInput, isEmail: string -> bool) {
    && c.invoiceNumber != ""
    && ValidVendorInput(c.vendor, isEmail)
    && c.totalAmount > 0
    && |c.lineItems| >= 1
    && (forall k :: 0 <= k < |c.lineItems| ==> ValidLineItemInput(c.lineItems[k]))
  }

  /** The schema's `.default('pending')` for the status of a new invoice. */
  function WithCreateDefaults(c: CreateInvoiceInput): (d: CreateInvoiceInput)
    ensures d.status.Some?
    ensures c.status.Some? ==> d.status == c.status
    ensures c.status.None? ==> d.status == Some(DefaultStatus)
    ensures d.(status := c.status) == c
  {
    c.(status := Some(c.status.GetOr(DefaultStatus)))
  }

  // updateInvoiceInputSchema
  predicate ValidUpdateInvoiceInput(u: UpdateInvoiceInput) {
    && (u.invoiceNumber.Some? ==> u.invoiceNumber.value != "")
    && (u.totalAmount.Some? ==> u.totalAmount.value > 0)
  }

  // getInvoicesQuerySchema after defaults
  predicate ValidInvoicesQuery(q: InvoicesQuery) {
    && 1 <= q.limit <= 100
    && q.offset >= 0
  }

  const DefaultLimit: int := 50
  const DefaultOffset: int := 0

  /** The schema's defaults: limit 50, offset 0. */
  function WithQueryDefaults(raw: RawInvoicesQuery): (q: InvoicesQuery)
    ensures q.status == raw.status && q.vendorId == raw.vendorId
    ensures q.limit == (if raw.limit.Some? then raw.limit.value else DefaultLimit)
    ensures q.offset == (if raw.offset.Some? then raw.offset.value else DefaultOffset)
  {
    InvoicesQuery(raw.status, raw.vendorId, raw.limit.GetOr(DefaultLimit), raw.offset.GetOr(DefaultOffset))
  }

  /** A raw query is accepted exactly when every given limit is in [1, 100] and every given offset is non-negative. */
  lemma QueryDefaultsAccepted(raw: RawInvoicesQuery)
    ensures ValidInvoicesQuery(WithQueryDefaults(raw)) <==>
      && (raw.limit.Some? ==> 1 <= raw.limit.value <= 100)
      && (raw.offset.Some? ==> raw.offset.value >= 0)
  {
  }

  // getInvoiceByIdInputSchema
  predicate ValidInvoiceIdInput(id: int) {
    id > 0
  }

  // uploadInvoiceInputSchema
  predicate ValidUploadInvoiceInput(u: UploadInvoiceInput) {
    && u.filename != ""
    && u.contentType != ""
    && u.fileData != ""
  }

  // The declared column precisions, which the handlers' inputs must respect.

  predicate LineItemInputFits(li: LineItemInput) {
    FitsNumeric10(li.quantity) && FitsNumeric10(li.unitPrice) && FitsNumeric10(li.totalPrice)
  }

  predicate CreateInputFits(c: CreateInvoiceInput) {
    && FitsNumeric10(c.totalAmount)
    && (forall k :: 0 <= k < |c.lineItems| ==> LineItemInputFits(c.lineItems[k]))
  }

  predicate UpdateInputFits(u: UpdateInvoiceInput) {
    u.totalAmount.Some? ==> FitsNumeric10(u.totalAmount.value)
  }
}
