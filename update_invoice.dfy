/**
 * Updating an invoice: a merge patch of the header fields. Absent fields keep
 * their stored value, `updatedAt` is always set to the time of the call, and
 * the updated invoice is read back with its vendor and line items.
 */
module InvoiceUpdate {
  import opened Wrappers
  import opened DbSchema
  import opened InputSchema
  import opened Lookup
  import opened InvoiceById

  /**
   * The row after the `SET` built from the patch: each field present in the
   * patch is overwritten and each absent one kept; an explicit null clears the
   * due date; `updatedAt` is the time of the call; the id, the vendor, the
   * file fields and `createdAt` never change.
   */
  function ApplyPatch(row: Invoice, u: UpdateInvoiceInput, now: Timestamp): (r: Invoice)
    ensures u.invoiceNumber.Some? ==> r.invoiceNumber == u.invoiceNumber.value
    ensures u.invoiceNumber.None? ==> r.invoiceNumber == row.invoiceNumber
    ensures u.invoiceDate.Some? ==> r.invoiceDate == u.invoiceDate.value
    ensures u.invoiceDate.None? ==> r.invoiceDate == row.invoiceDate
    ensures u.dueDate == Some(None) ==> r.dueDate.None?
    ensures u.dueDate.Some? ==> r.dueDate == u.dueDate.value
    ensures u.dueDate.None? ==> r.dueDate == row.dueDate
    ensures u.totalAmount.Some? ==> r.totalAmount == u.totalAmount.value
    ensures u.totalAmount.None? ==> r.totalAmount == row.totalAmount
    ensures u.status.Some? ==> r.status == u.status.value
    ensures u.status.None? ==> r.status == row.status
    ensures r.updatedAt == now
    ensures r.id == row.id && r.vendorId == row.vendorId
    ensures r.filePath == row.filePath && r.originalFilename == row.originalFilename
    ensures r.createdAt == row.createdAt
  {
    row.(
      invoiceNumber := u.invoiceNumber.GetOr(row.invoiceNumber),
      invoiceDate := u.invoiceDate.GetOr(row.invoiceDate),
      dueDate := u.dueDate.GetOr(row.dueDate),
      totalAmount := u.totalAmount.GetOr(row.totalAmount),
      status := u.status.GetOr(row.status),
      updatedAt := now)
  }

  datatype UpdateOutcome = UpdateOutcome(db: Db, result: Option<InvoiceWithDetails>)

  /**
   * `updateInvoice`: absent invoice gives `None` and no change; otherwise the
   * row is patched in place and the result is the re-read of that id. Either
   * way only invoice rows with the patched id can change, and they keep their
   * place and id.
   */
  function UpdateInvoice(db: Db, u: UpdateInvoiceInput, now: Timestamp): (out: UpdateOutcome)
    ensures !HasInvoice(db.invoices, u.id) ==> out == UpdateOutcome(db, None)
    ensures out.db.vendors == db.vendors && out.db.lineItems == db.lineItems
    ensures out.db.nextVendorId == db.nextVendorId && out.db.nextInvoiceId == db.nextInvoiceId
    ensures out.db.nextLineItemId == db.nextLineItemId
    ensures |out.db.invoices| == |db.invoices|
    ensures forall j :: 0 <= j < |db.invoices| ==> out.db.invoices[j].id == db.invoices[j].id
    ensures forall j :: 0 <= j < |db.invoices| && db.invoices[j].id != u.id ==> out.db.invoices[j] == db.invoices[j]
    ensures out.result.Some? ==> out.result.value.invoice.id == u.id && out.result.value.invoice in out.db.invoices
  {
    match InvoiceIndex(db.invoices, u.id)
    case None => UpdateOutcome(db, None)
    case Some(i) =>
      var db' := db.(invoices := db.invoices[i := ApplyPatch(db.invoices[i], u, now)]);
      UpdateOutcome(db', GetInvoiceById(db', u.id))
  }

  /** An empty patch only touches `updatedAt`. */
  lemma EmptyPatch(row: Invoice, now: Timestamp, id: int)
    ensures ApplyPatch(row, UpdateInvoiceInput(id, None, None, None, None, None), now) == row.(updatedAt := now)
  {
  }

  /** Patching twice with the same patch is patching once (at the later time). */
  lemma PatchIdempotent(row: Invoice, u: UpdateInvoiceInput, t1: Timestamp, t2: Timestamp)
    ensures ApplyPatch(ApplyPatch(row, u, t1), u, t2) == ApplyPatch(row, u, t2)
  {
  }

  /**
   * Updating an existing invoice replaces exactly that row, in place, by its
   * patched version; every other row of every table and every sequence stays.
   */
  lemma UpdateFound(db: Db, u: UpdateInvoiceInput, now: Timestamp, i: nat)
    requires Valid(db) && i < |db.invoices| && db.invoices[i].id == u.id
    ensures var out := UpdateInvoice(db, u, now);
      && out.db == db.(invoices := db.invoices[i := ApplyPatch(db.invoices[i], u, now)])
      && out.result.Some?
      && out.result.value.invoice == ApplyPatch(db.invoices[i], u, now)
      && out.result.value.vendor.id == db.invoices[i].vendorId
      && out.result.value.lineItems == ItemsOf(db.lineItems, u.id)
  {
    InvoiceIndexOf(db.invoices, i);
    var out := UpdateInvoice(db, u, now);
    assert InvoiceIdsIncreasing(out.db.invoices) by {
      assert forall j :: 0 <= j < |out.db.invoices| ==> out.db.invoices[j].id == db.invoices[j].id;
    }
    InvoiceIndexOf(out.db.invoices, i);
    var w :| w in db.vendors && w.id == db.invoices[i].vendorId;
    assert w.id == out.db.invoices[i].vendorId;
  }

  /** Patching a row keeps the store invariant when a given total fits its column. */
  lemma PatchedValid(db: Db, i: nat, u: UpdateInvoiceInput, now: Timestamp)
    requires Valid(db) && i < |db.invoices|
    requires UpdateInputFits(u)
    ensures Valid(db.(invoices := db.invoices[i := ApplyPatch(db.invoices[i], u, now)]))
  {
    var invs' := db.invoices[i := ApplyPatch(db.invoices[i], u, now)];
    assert forall j :: 0 <= j < |invs'| ==> invs'[j].id == db.invoices[j].id;
    forall inv | inv in invs' ensures inv in db.invoices || inv == invs'[i] {
    }
    assert db.invoices[i] in db.invoices;
    forall li | li in db.lineItems ensures HasInvoice(invs', li.invoiceId) {
      var w :| w in db.invoices && w.id == li.invoiceId;
      var j :| 0 <= j < |db.invoices| && db.invoices[j] == w;
      assert invs'[j] in invs';
    }
  }

  /** An accepted update keeps the store invariant. */
  lemma UpdatePreservesValid(db: Db, u: UpdateInvoiceInput, now: Timestamp)
    requires Valid(db) && UpdateInputFits(u)
    ensures Valid(UpdateInvoice(db, u, now).db)
  {
    match InvoiceIndex(db.invoices, u.id)
    case None =>
    case Some(i) => PatchedValid(db, i, u, now);
  }

  /** A patch the schema accepts never blanks the invoice number and never stores a non-positive total it carries. */
  lemma UpdateFromValidInput(row: Invoice, u: UpdateInvoiceInput, now: Timestamp)
    requires ValidUpdateInvoiceInput(u)
    requires row.invoiceNumber != "" && row.totalAmount > 0
    ensures ApplyPatch(row, u, now).invoiceNumber != ""
    ensures ApplyPatch(row, u, now).totalAmount > 0
  {
  }
}
