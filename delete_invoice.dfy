/**
 * Deleting an invoice: a missing id reports failure and changes nothing; an
 * existing invoice is removed together with its line items (the foreign key's
 * `ON DELETE CASCADE`), and its id is reported back.
 */
module InvoiceDeletion {
  import opened Wrappers
  import opened DbSchema
  import opened Lookup
  import opened InvoiceById

  /** `{ success, deleted_id }`; `deletedId` is `None` for a null id. */
  datatype DeleteResult = DeleteResult(success: bool, deletedId: Option<int>)

  datatype DeleteOutcome = DeleteOutcome(db: Db, result: DeleteResult)

  /**
   * `deleteInvoice`: the existence check, then the delete and its cascade. A
   * missing id reports failure with a null id and changes nothing; an existing
   * one reports success with that id, and exactly the invoices with another id
   * and the line items referencing another invoice remain. Vendors and
   * sequences never change.
   */
  function DeleteInvoice(db: Db, id: int): (out: DeleteOutcome)
    ensures !HasInvoice(db.invoices, id) ==> out == DeleteOutcome(db, DeleteResult(false, None))
    ensures HasInvoice(db.invoices, id) ==>
      && out.result == DeleteResult(true, Some(id))
      && (forall inv :: inv in out.db.invoices <==> inv in db.invoices && inv.id != id)
      && (forall li :: li in out.db.lineItems <==> li in db.lineItems && li.invoiceId != id)
    ensures !HasInvoice(out.db.invoices, id)
    ensures out.db.vendors == db.vendors
    ensures out.db.nextVendorId == db.nextVendorId
    ensures out.db.nextInvoiceId == db.nextInvoiceId
    ensures out.db.nextLineItemId == db.nextLineItemId
  {
    match InvoiceIndex(db.invoices, id)
    case None => DeleteOutcome(db, DeleteResult(false, None))
    case Some(_) =>
      var db' := db.(invoices := InvoicesExcept(db.invoices, id), lineItems := ItemsNotOf(db.lineItems, id));
      DeleteOutcome(db', DeleteResult(true, Some(id)))
  }

  /** The line items of every other invoice are exactly what they were, in the same order. */
  lemma DeleteKeepsOtherItems(db: Db, id: int, other: int)
    requires other != id
    ensures ItemsOf(DeleteInvoice(db, id).db.lineItems, other) == ItemsOf(db.lineItems, other)
  {
    if InvoiceIndex(db.invoices, id).Some? {
      ItemsOfItemsNotOf(db.lineItems, id, other);
    }
  }

  /** After a delete the invoice is no longer found, and deleting it again reports failure. */
  lemma DeleteThenMissing(db: Db, id: int)
    ensures var out := DeleteInvoice(db, id);
      && GetInvoiceById(out.db, id).None?
      && DeleteInvoice(out.db, id) == DeleteOutcome(out.db, DeleteResult(false, None))
  {
  }

  /** Deleting keeps the store invariant: no remaining line item is left without its invoice. */
  lemma DeletePreservesValid(db: Db, id: int)
    requires Valid(db)
    ensures Valid(DeleteInvoice(db, id).db)
  {
    match InvoiceIndex(db.invoices, id)
    case None =>
    case Some(i) =>
      var out := DeleteInvoice(db, id).db;
      ExceptSerial(db.invoices, i, db.nextInvoiceId);
      ItemsNotOfSerial(db.lineItems, id, db.nextLineItemId);
      forall li | li in out.lineItems ensures HasInvoice(out.invoices, li.invoiceId) {
        var w :| w in db.invoices && w.id == li.invoiceId;
        assert w in out.invoices;
      }
  }
}
