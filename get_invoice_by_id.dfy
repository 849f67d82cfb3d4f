/**
 * The hydrated read model and the lookup of one invoice by id: the invoice row
 * joined with its vendor and all its line items, or absent.
 */
module InvoiceById {
  import opened Wrappers
  import opened DbSchema
  import opened Lookup
  import opened InputSchema

  /** An invoice row with its vendor and its line items embedded. */
  datatype InvoiceWithDetails = InvoiceWithDetails(
    invoice: Invoice,
    vendor: Vendor,
    lineItems: seq<LineItem>)

  /** The invoice joined (inner) with its vendor and (left) with its line items. */
  function GetInvoiceById(db: Db, id: int): (r: Option<InvoiceWithDetails>)
    ensures !HasInvoice(db.invoices, id) ==> r.None?
    ensures r.Some? ==>
      && r.value.invoice in db.invoices
      && r.value.invoice.id == id
      && r.value.vendor in db.vendors
      && r.value.vendor.id == r.value.invoice.vendorId
      && (forall li :: li in r.value.lineItems <==> li in db.lineItems && li.invoiceId == id)
  {
    match InvoiceIndex(db.invoices, id)
    case None => None
    case Some(i) =>
      match VendorIndex(db.vendors, db.invoices[i].vendorId)
      case None => None
      case Some(k) => Some(InvoiceWithDetails(db.invoices[i], db.vendors[k], ItemsOf(db.lineItems, id)))
  }

  /** In a valid store the lookup finds exactly the invoices that exist, as stored, with every item that references them. */
  lemma GetInvoiceByIdFound(db: Db, i: nat)
    requires Valid(db)
    requires i < |db.invoices|
    ensures GetInvoiceById(db, db.invoices[i].id).Some?
    ensures GetInvoiceById(db, db.invoices[i].id).value.invoice == db.invoices[i]
    ensures GetInvoiceById(db, db.invoices[i].id).value.lineItems == ItemsOf(db.lineItems, db.invoices[i].id)
  {
  }

  /** An invoice without line items is returned with an empty list. */
  lemma GetInvoiceByIdNoItems(db: Db, id: int)
    requires GetInvoiceById(db, id).Some?
    requires forall li :: li in db.lineItems ==> li.invoiceId != id
    ensures GetInvoiceById(db, id).value.lineItems == []
  {
    ItemsOfNone(db.lineItems, id);
  }

  /** An id the schema rejects (zero or negative) names no row of a valid store, so the lookup finds nothing. */
  lemma RejectedIdAbsent(db: Db, id: int)
    requires Valid(db)
    requires !ValidInvoiceIdInput(id)
    ensures !HasInvoice(db.invoices, id)
    ensures GetInvoiceById(db, id).None?
  {
  }
}
