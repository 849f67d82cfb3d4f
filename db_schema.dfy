/**
 * The three relations of the bookkeeping store (vendors, invoices, line items),
 * their column types, defaults and the integrity rules the database enforces:
 * serial primary keys, the two foreign keys and the declared numeric precision.
 *
 * Every table is a sequence of rows kept in ascending id order, which is the
 * order in which rows are inserted with serial ids.
 */
module DbSchema {
  import opened Wrappers

  /** Milliseconds since the epoch; clocks are parameters of the model. */
  type Timestamp = int

  /** The `invoice_status` enum. */
  datatype Status = Pending | Processed | Paid | Overdue

  /** The enum's stored labels. */
  function StatusLabel(s: Status): string {
    match s
    case Pending => "pending"
    case Processed => "processed"
    case Paid => "paid"
    case Overdue => "overdue"
  }

  /** The column default of `invoices.status`. */
  const DefaultStatus: Status := Pending

  /**
   * `numeric(10, s)` holds at most 10 significant digits. Money is kept in
   * cents (scale 2) and quantities in thousandths (scale 3), so in either case
   * the unscaled integer must have at most 10 digits.
   */
  const NumericLimit: int := 10_000_000_000

  predicate FitsNumeric10(x: int) {
    -NumericLimit < x < NumericLimit
  }

  datatype Vendor = Vendor(
    id: nat,
    name: string,
    address: Option<string>,
    email: Option<string>,
    phone: Option<string>,
    createdAt: Timestamp)

  /** `totalAmount` is in cents. */
  datatype Invoice = Invoice(
    id: nat,
    invoiceNumber: string,
    vendorId: int,
    invoiceDate: Timestamp,
    dueDate: Option<Timestamp>,
    totalAmount: int,
    status: Status,
    filePath: Option<string>,
    originalFilename: Option<string>,
    createdAt: Timestamp,
    updatedAt: Timestamp)

  /** `quantity` is in thousandths, `unitPrice` and `totalPrice` in cents. */
  datatype LineItem = LineItem(
    id: nat,
    invoiceId: int,
    description: string,
    quantity: int,
    unitPrice: int,
    totalPrice: int,
    createdAt: Timestamp)

  /** The whole database: the three tables and the next value of each serial sequence. */
  datatype Db = Db(
    vendors: seq<Vendor>,
    invoices: seq<Invoice>,
    lineItems: seq<LineItem>,
    nextVendorId: nat,
    nextInvoiceId: nat,
    nextLineItemId: nat)

  /** A freshly created database: empty tables, every sequence starting at 1. */
  const EmptyDb: Db := Db([], [], [], 1, 1, 1)

  // Serial primary keys: ids are at least 1, below the sequence's next value,
  // and strictly increasing along the table (hence unique).

  ghost predicate VendorIdsIncreasing(vs: seq<Vendor>) {
    forall i, j :: 0 <= i < j < |vs| ==> vs[i].id < vs[j].id
  }

  ghost predicate InvoiceIdsIncreasing(invs: seq<Invoice>) {
    forall i, j :: 0 <= i < j < |invs| ==> invs[i].id < invs[j].id
  }

  ghost predicate LineItemIdsIncreasing(items: seq<LineItem>) {
    forall i, j :: 0 <= i < j < |items| ==> items[i].id < items[j].id
  }

  ghost predicate VendorIdsSerial(vs: seq<Vendor>, next: nat) {
    1 <= next && VendorIdsIncreasing(vs) && forall v :: v in vs ==> 1 <= v.id < next
  }

  ghost predicate InvoiceIdsSerial(invs: seq<Invoice>, next: nat) {
    1 <= next && InvoiceIdsIncreasing(invs) && forall inv :: inv in invs ==> 1 <= inv.id < next
  }

  ghost predicate LineItemIdsSerial(items: seq<LineItem>, next: nat) {
    1 <= next && LineItemIdsIncreasing(items) && forall li :: li in items ==> 1 <= li.id < next
  }

  /** Some row of the vendors table has this id. */
  ghost predicate HasVendor(vs: seq<Vendor>, id: int) {
    exists v :: v in vs && v.id == id
  }

  /** Some row of the invoices table has this id. */
  ghost predicate HasInvoice(invs: seq<Invoice>, id: int) {
    exists inv :: inv in invs && inv.id == id
  }

  /** The stored decimals respect their declared precision. */
  ghost predicate InvoiceFits(inv: Invoice) {
    FitsNumeric10(inv.totalAmount)
  }

  ghost predicate LineItemFits(li: LineItem) {
    FitsNumeric10(li.quantity) && FitsNumeric10(li.unitPrice) && FitsNumeric10(li.totalPrice)
  }

  /**
   * The store invariant: serial keys, `invoices.vendor_id -> vendors.id`,
   * `line_items.invoice_id -> invoices.id` and the numeric precisions.
   */
  ghost predicate Valid(db: Db) {
    && VendorIdsSerial(db.vendors, db.nextVendorId)
    && InvoiceIdsSerial(db.invoices, db.nextInvoiceId)
    && LineItemIdsSerial(db.lineItems, db.nextLineItemId)
    && (forall inv :: inv in db.invoices ==> HasVendor(db.vendors, inv.vendorId) && InvoiceFits(inv))
    && (forall li :: li in db.lineItems ==> HasInvoice(db.invoices, li.invoiceId) && LineItemFits(li))
  }

  lemma EmptyDbValid()
    ensures Valid(EmptyDb)
  {
  }

  /** In a valid store no two rows of a table share an id, and every line item leads through its invoice to a stored vendor. */
  lemma ValidKeysAndReferences(db: Db)
    requires Valid(db)
    ensures forall i, j :: 0 <= i < |db.vendors| && 0 <= j < |db.vendors| && db.vendors[i].id == db.vendors[j].id ==> i == j
    ensures forall i, j :: 0 <= i < |db.invoices| && 0 <= j < |db.invoices| && db.invoices[i].id == db.invoices[j].id ==> i == j
    ensures forall i, j :: 0 <= i < |db.lineItems| && 0 <= j < |db.lineItems| && db.lineItems[i].id == db.lineItems[j].id ==> i == j
    ensures forall li :: li in db.lineItems ==>
      exists inv :: inv in db.invoices && inv.id == li.invoiceId && HasVendor(db.vendors, inv.vendorId)
  {
  }
}
