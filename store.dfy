/**
 * The database behind the handlers as one mutable object: the three tables
 * and their serial sequences. Each handler is a method; the state-changing
 * ones are specified by the functions of their modules, whose properties are
 * proved there, and keep the store invariant.
 */
module Handlers {
  import opened Wrappers
  import opened DbSchema
  import opened InputSchema
  import opened Lookup
  import InvoiceById
  import InvoiceCreation
  import InvoiceUpdate
  import InvoiceDeletion
  import InvoiceListing
  import VendorListing

  /**
   * The handlers over one in-memory database. The mutating handlers are proved
   * equal to their pure models; the read handlers delegate to the pure lookups,
   * whose contracts carry the proved properties.
   */
  class Store {
    var vendors: seq<Vendor>
    var invoices: seq<Invoice>
    var lineItems: seq<LineItem>
    var nextVendorId: nat
    var nextInvoiceId: nat
    var nextLineItemId: nat

    /** The store's state as a database value. */
    function Contents(): Db
      reads this
    {
      Db(vendors, invoices, lineItems, nextVendorId, nextInvoiceId, nextLineItemId)
    }

    ghost predicate Valid()
      reads this
    {
      DbSchema.Valid(Contents())
    }

    /** A freshly migrated database. */
    constructor()
      ensures Contents() == EmptyDb
      ensures Valid()
    {
      vendors, invoices, lineItems := [], [], [];
      nextVendorId, nextInvoiceId, nextLineItemId := 1, 1, 1;
    }

    /** `createInvoice`: find or insert the vendor, insert the invoice, bulk-insert its line items. */
    method CreateInvoice(input: CreateInvoiceInput, now: Timestamp) returns (result: InvoiceById.InvoiceWithDetails)
      requires Valid()
      requires CreateInputFits(input)
      modifies this
      ensures Valid()
      ensures Contents() == InvoiceCreation.CreateInvoice(old(Contents()), input, now).db
      ensures result == InvoiceCreation.CreateInvoice(old(Contents()), input, now).result
    {
      ghost var before := Contents();
      var vendor: Vendor;
      var existing := InvoiceCreation.MatchIndex(vendors, input.vendor);
      if existing.Some? {
        vendor := vendors[existing.value];
      } else {
        vendor := InvoiceCreation.NewVendorRow(input.vendor, nextVendorId, now);
        vendors := vendors + [vendor];
        nextVendorId := nextVendorId + 1;
      }
      var invoice := InvoiceCreation.NewInvoiceRow(input, nextInvoiceId, vendor.id, now);
      invoices := invoices + [invoice];
      nextInvoiceId := nextInvoiceId + 1;
      var rows := InvoiceCreation.NewLineItemRows(input.lineItems, nextLineItemId, invoice.id, now);
      lineItems := lineItems + rows;
      nextLineItemId := nextLineItemId + |rows|;
      result := InvoiceById.InvoiceWithDetails(invoice, vendor, rows);
      InvoiceCreation.CreatePreservesValid(before, input, now);
    }

    /** `updateInvoice`: the existence check, the patch built field by field, the update and the re-read. */
    method UpdateInvoice(input: UpdateInvoiceInput, now: Timestamp) returns (result: Option<InvoiceById.InvoiceWithDetails>)
      requires Valid()
      requires UpdateInputFits(input)
      modifies this
      ensures Valid()
      ensures Contents() == InvoiceUpdate.UpdateInvoice(old(Contents()), input, now).db
      ensures result == InvoiceUpdate.UpdateInvoice(old(Contents()), input, now).result
    {
      ghost var before := Contents();
      var found := InvoiceIndex(invoices, input.id);
      if found.None? {
        return None;
      }
      var i := found.value;
      var row := invoices[i].(updatedAt := now);
      if input.invoiceNumber.Some? {
        row := row.(invoiceNumber := input.invoiceNumber.value);
      }
      if input.invoiceDate.Some? {
        row := row.(invoiceDate := input.invoiceDate.value);
      }
      if input.dueDate.Some? {
        row := row.(dueDate := input.dueDate.value);
      }
      if input.totalAmount.Some? {
        row := row.(totalAmount := input.totalAmount.value);
      }
      if input.status.Some? {
        row := row.(status := input.status.value);
      }
      assert row == InvoiceUpdate.ApplyPatch(before.invoices[i], input, now);
      invoices := invoices[i := row];
      result := InvoiceById.GetInvoiceById(Contents(), input.id);
      InvoiceUpdate.UpdatePreservesValid(before, input, now);
    }

    /** `deleteInvoice`: the existence check, then the delete, whose cascade removes the invoice's line items. */
    method DeleteInvoice(id: int) returns (result: InvoiceDeletion.DeleteResult)
      requires Valid()
      modifies this
      ensures Valid()
      ensures Contents() == InvoiceDeletion.DeleteInvoice(old(Contents()), id).db
      ensures result == InvoiceDeletion.DeleteInvoice(old(Contents()), id).result
    {
      ghost var before := Contents();
      var found := InvoiceIndex(invoices, id);
      if found.None? {
        return InvoiceDeletion.DeleteResult(false, None);
      }
      var i := found.value;
      OnlyRowWithId(invoices, i);
      RemoveAtIsExcept(invoices, i);
      invoices := invoices[..i] + invoices[i + 1..];
      lineItems := ItemsNotOf(lineItems, id);
      result := InvoiceDeletion.DeleteResult(true, Some(id));
      InvoiceDeletion.DeletePreservesValid(before, id);
    }

    /**
     * `getInvoices`: the filtered, paged join; one query for the line items of
     * the page's invoices, grouped by invoice id; each row hydrated from the
     * groups, with `[]` for an invoice without items.
     */
    method GetInvoices(q: InvoicesQuery) returns (r: seq<InvoiceById.InvoiceWithDetails>)
      requires ValidInvoicesQuery(q)
      ensures r == InvoiceListing.GetInvoices(Contents(), q)
    {
      var listed := InvoiceListing.Listed(invoices, vendors, q);
      var page := InvoiceListing.Page(listed, q.offset, q.limit);
      if |page| == 0 {
        return [];
      }
      var ids := set k | 0 <= k < |page| :: page[k].id;
      var selected := ItemsIn(lineItems, ids);
      var grouped := InvoiceListing.GroupByInvoice(selected);
      var vs := vendors;
      r := seq(|page|, k requires 0 <= k < |page| =>
        assert page[k] in listed;
        InvoiceById.InvoiceWithDetails(
          page[k],
          vs[VendorIndex(vs, page[k].vendorId).value],
          if page[k].id in grouped then grouped[page[k].id] else []));
      forall k | 0 <= k < |page|
        ensures page[k] in listed && r[k] == InvoiceListing.Hydrate(Contents(), page[k])
      {
        ItemsOfItemsIn(lineItems, ids, page[k].id);
      }
      InvoiceListing.HydratedPage(Contents(), q, r);
    }

    /** `getInvoiceById`: the joined row with its line items, or `None`. */
    method GetInvoiceById(id: int) returns (r: Option<InvoiceById.InvoiceWithDetails>)
      ensures r == InvoiceById.GetInvoiceById(Contents(), id)
    {
      r := InvoiceById.GetInvoiceById(Contents(), id);
    }

    /** `getVendors`: every vendor, ordered by name. */
    method GetVendors() returns (r: seq<Vendor>)
      ensures r == VendorListing.GetVendors(Contents())
    {
      r := VendorListing.SortByName(vendors);
    }
  }
}
