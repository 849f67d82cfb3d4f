/**
 * Creating an invoice: find-or-create the vendor by name or e-mail, insert the
 * invoice row referencing it, insert one line-item row per input item, and
 * return the hydrated invoice.
 *
 * The three steps are separate statements in the source, with no transaction;
 * the model runs them one after the other on one state. Every row inserted by
 * one call gets the same creation time `now`.
 */
module InvoiceCreation {
  import opened Wrappers
  import opened DbSchema
  import opened InputSchema
  import opened Lookup
  import opened InvoiceById

  /** JavaScript truthiness of an optional string: present and non-empty. */
  predicate Truthy(o: Option<string>) {
    o.Some? && o.value != ""
  }

  /** A stored optional text is NULL exactly when the given one was absent or empty, and the given text otherwise. */
  predicate NulledFrom(stored: Option<string>, given: Option<string>) {
    (stored.Some? <==> Truthy(given)) && (Truthy(given) ==> stored == given)
  }

  /** `value || null`: an absent or empty string is stored as NULL. */
  function NullIfEmpty(o: Option<string>): (r: Option<string>)
    ensures NulledFrom(r, o)
    ensures r.Some? ==> r == o
  {
    if Truthy(o) then o else None
  }

  /** `name = input.name OR email = input.email`, the e-mail test only when the input e-mail is truthy. */
  predicate VendorMatches(row: Vendor, v: VendorInput): (b: bool)
    ensures row.name == v.name ==> b
    ensures !Truthy(v.email) ==> (b <==> row.name == v.name)
  {
    row.name == v.name || (Truthy(v.email) && row.email == v.email)
  }

  /**
   * The vendor the find-or-create picks. The source takes the first row of an
   * unordered SELECT; the model takes the first match in table order, which is
   * the match with the lowest id.
   */
  function MatchIndex(vs: seq<Vendor>, v: VendorInput): (r: Option<nat>)
    ensures r.Some? ==> r.value < |vs| && VendorMatches(vs[r.value], v)
    ensures r.Some? ==> forall j :: 0 <= j < r.value ==> !VendorMatches(vs[j], v)
    ensures r.None? ==> forall j :: 0 <= j < |vs| ==> !VendorMatches(vs[j], v)
  {
    if |vs| == 0 then None
    else if VendorMatches(vs[0], v) then Some(0)
    else
      match MatchIndex(vs[1..], v)
      case None => None
      case Some(k) => Some(k + 1)
  }

  /** The vendor row inserted when nothing matches. */
  function NewVendorRow(v: VendorInput, id: nat, now: Timestamp): (r: Vendor)
    ensures r.id == id && r.name == v.name && r.createdAt == now
    ensures NulledFrom(r.address, v.address) && NulledFrom(r.email, v.email) && NulledFrom(r.phone, v.phone)
  {
    Vendor(id, v.name, NullIfEmpty(v.address), NullIfEmpty(v.email), NullIfEmpty(v.phone), now)
  }

  /** The invoice row inserted for the input. */
  function NewInvoiceRow(c: CreateInvoiceInput, id: nat, vendorId: nat, now: Timestamp): (r: Invoice)
    ensures r.id == id && r.vendorId == vendorId
    ensures r.invoiceNumber == c.invoiceNumber && r.invoiceDate == c.invoiceDate
    ensures r.dueDate == c.dueDate && r.totalAmount == c.totalAmount
    ensures r.status == (if c.status.Some? then c.status.value else Pending)
    ensures NulledFrom(r.filePath, c.filePath) && NulledFrom(r.originalFilename, c.originalFilename)
    ensures r.createdAt == now && r.updatedAt == now
  {
    Invoice(id, c.invoiceNumber, vendorId, c.invoiceDate, c.dueDate, c.totalAmount,
      c.status.GetOr(DefaultStatus), NullIfEmpty(c.filePath), NullIfEmpty(c.originalFilename), now, now)
  }

  /** The line-item row inserted for one input item. */
  function NewLineItemRow(li: LineItemInput, id: nat, invoiceId: nat, now: Timestamp): LineItem {
    LineItem(id, invoiceId, li.description, li.quantity, li.unitPrice, li.totalPrice, now)
  }

  /** The rows of the bulk insert: one per input item, in input order, with consecutive serial ids. */
  function NewLineItemRows(items: seq<LineItemInput>, firstId: nat, invoiceId: nat, now: Timestamp): (r: seq<LineItem>)
    ensures |r| == |items|
    ensures forall k :: 0 <= k < |r| ==>
      && r[k].id == firstId + k
      && r[k].invoiceId == invoiceId
      && r[k].description == items[k].description
      && r[k].quantity == items[k].quantity
      && r[k].unitPrice == items[k].unitPrice
      && r[k].totalPrice == items[k].totalPrice
      && r[k].createdAt == now
  {
    seq(|items|, k requires 0 <= k < |items| => NewLineItemRow(items[k], firstId + k, invoiceId, now))
  }

  datatype Resolution = Resolution(db: Db, vendor: Vendor)

  /** Step 1: the matching vendor, or a newly inserted one. */
  function ResolveVendor(db: Db, v: VendorInput, now: Timestamp): (r: Resolution)
    ensures r.vendor in r.db.vendors && VendorMatches(r.vendor, v)
    ensures r.db.invoices == db.invoices && r.db.lineItems == db.lineItems
    ensures r.db.nextInvoiceId == db.nextInvoiceId && r.db.nextLineItemId == db.nextLineItemId
    ensures MatchIndex(db.vendors, v).Some? ==> r.db == db
    ensures MatchIndex(db.vendors, v).None? ==>
      && r.db.vendors == db.vendors + [r.vendor]
      && r.db.nextVendorId == db.nextVendorId + 1
      && r.vendor.id == db.nextVendorId
  {
    match MatchIndex(db.vendors, v)
    case Some(k) => Resolution(db, db.vendors[k])
    case None =>
      var row := NewVendorRow(v, db.nextVendorId, now);
      Resolution(db.(vendors := db.vendors + [row], nextVendorId := db.nextVendorId + 1), row)
  }

  datatype Creation = Creation(db: Db, result: InvoiceWithDetails)

  /** The state after `createInvoice` and the hydrated invoice it returns. */
  function CreateInvoice(db: Db, c: CreateInvoiceInput, now: Timestamp): (out: Creation)
    ensures out.result.vendor in out.db.vendors && VendorMatches(out.result.vendor, c.vendor)
    ensures out.result.invoice.vendorId == out.result.vendor.id
    ensures out.result.invoice.id == db.nextInvoiceId
    ensures out.db.invoices == db.invoices + [out.result.invoice]
    ensures out.db.nextInvoiceId == db.nextInvoiceId + 1
    ensures |out.result.lineItems| == |c.lineItems|
    ensures forall li :: li in out.result.lineItems ==> li.invoiceId == out.result.invoice.id
    ensures out.db.lineItems == db.lineItems + out.result.lineItems
    ensures out.db.nextLineItemId == db.nextLineItemId + |c.lineItems|
  {
    var resolved := ResolveVendor(db, c.vendor, now);
    var db1 := resolved.db;
    var invoice := NewInvoiceRow(c, db1.nextInvoiceId, resolved.vendor.id, now);
    var items := NewLineItemRows(c.lineItems, db1.nextLineItemId, invoice.id, now);
    var db2 := db1.(
      invoices := db1.invoices + [invoice],
      nextInvoiceId := db1.nextInvoiceId + 1,
      lineItems := db1.lineItems + items,
      nextLineItemId := db1.nextLineItemId + |items|);
    Creation(db2, InvoiceWithDetails(invoice, resolved.vendor, items))
  }

  /** A vendor that matches by name, or by a non-empty e-mail, is reused: the vendor table is unchanged and the stored row is returned as it is. */
  lemma CreateReusesVendor(db: Db, c: CreateInvoiceInput, now: Timestamp, k: nat)
    requires k < |db.vendors| && VendorMatches(db.vendors[k], c.vendor)
    ensures var out := CreateInvoice(db, c, now);
      && out.db.vendors == db.vendors
      && out.db.nextVendorId == db.nextVendorId
      && out.result.vendor in db.vendors
      && VendorMatches(out.result.vendor, c.vendor)
  {
  }

  /** The reused vendor is the matching one with the lowest id. */
  lemma CreateReusesLowestMatch(db: Db, c: CreateInvoiceInput, now: Timestamp, k: nat)
    requires Valid(db)
    requires k < |db.vendors| && VendorMatches(db.vendors[k], c.vendor)
    ensures var chosen := CreateInvoice(db, c, now).result.vendor;
      forall w :: w in db.vendors && VendorMatches(w, c.vendor) ==> chosen.id <= w.id
  {
    var m := MatchIndex(db.vendors, c.vendor).value;
    forall w | w in db.vendors && VendorMatches(w, c.vendor) ensures db.vendors[m].id <= w.id {
      var j :| 0 <= j < |db.vendors| && db.vendors[j] == w;
      if m < j {
        assert db.vendors[m].id < db.vendors[j].id;
      }
    }
  }

  /** With no match exactly one vendor is inserted, with a fresh id and absent or empty optional fields stored as NULL. */
  lemma CreateInsertsVendor(db: Db, c: CreateInvoiceInput, now: Timestamp)
    requires forall w :: w in db.vendors ==> !VendorMatches(w, c.vendor)
    ensures var out := CreateInvoice(db, c, now);
      && out.db.vendors == db.vendors + [out.result.vendor]
      && out.result.vendor.id == db.nextVendorId
      && out.db.nextVendorId == db.nextVendorId + 1
      && out.result.vendor.name == c.vendor.name
      && (out.result.vendor.address.Some? <==> Truthy(c.vendor.address))
      && (out.result.vendor.email.Some? <==> Truthy(c.vendor.email))
      && (out.result.vendor.phone.Some? <==> Truthy(c.vendor.phone))
      && (Truthy(c.vendor.address) ==> out.result.vendor.address == c.vendor.address)
      && (Truthy(c.vendor.email) ==> out.result.vendor.email == c.vendor.email)
      && (Truthy(c.vendor.phone) ==> out.result.vendor.phone == c.vendor.phone)
      && out.result.vendor.createdAt == now
  {
  }

  /** The new invoice references the resolved vendor, defaults its status to pending, stores empty optional text as NULL and is stamped with `now`. */
  lemma CreatedInvoiceRow(db: Db, c: CreateInvoiceInput, now: Timestamp)
    ensures var out := CreateInvoice(db, c, now);
      var inv := out.result.invoice;
      && inv.vendorId == out.result.vendor.id
      && inv.invoiceNumber == c.invoiceNumber
      && inv.invoiceDate == c.invoiceDate
      && inv.dueDate == c.dueDate
      && inv.totalAmount == c.totalAmount
      && inv.status == (if c.status.Some? then c.status.value else Pending)
      && (inv.filePath.Some? <==> Truthy(c.filePath))
      && (inv.originalFilename.Some? <==> Truthy(c.originalFilename))
      && (Truthy(c.filePath) ==> inv.filePath == c.filePath)
      && (Truthy(c.originalFilename) ==> inv.originalFilename == c.originalFilename)
      && inv.createdAt == now && inv.updatedAt == now
      && inv.id == db.nextInvoiceId
      && out.db.invoices == db.invoices + [inv]
  {
  }

  /** Exactly one line-item row per input item is inserted, in input order, each referencing the new invoice and carrying the input's amounts unchanged. */
  lemma CreatedLineItems(db: Db, c: CreateInvoiceInput, now: Timestamp)
    ensures var out := CreateInvoice(db, c, now);
      var items := out.result.lineItems;
      && |items| == |c.lineItems|
      && out.db.lineItems == db.lineItems + items
      && (forall k :: 0 <= k < |items| ==>
           && items[k].invoiceId == out.result.invoice.id
           && items[k].id == db.nextLineItemId + k
           && items[k].description == c.lineItems[k].description
           && items[k].quantity == c.lineItems[k].quantity
           && items[k].unitPrice == c.lineItems[k].unitPrice
           && items[k].totalPrice == c.lineItems[k].totalPrice
           && items[k].createdAt == now)
  {
  }

  /**
   * An input the schema accepts yields an invoice with a non-empty number, a
   * positive total and at least one line item with positive amounts; a vendor
   * it inserts has a non-empty name and, if any, an accepted e-mail.
   */
  lemma CreateFromValidInput(db: Db, c: CreateInvoiceInput, now: Timestamp, isEmail: string -> bool)
    requires ValidCreateInvoiceInput(c, isEmail)
    ensures var out := CreateInvoice(db, c, now);
      && out.result.invoice.invoiceNumber != ""
      && out.result.invoice.totalAmount > 0
      && |out.result.lineItems| >= 1
      && (forall li :: li in out.result.lineItems ==>
           li.description != "" && li.quantity > 0 && li.unitPrice > 0 && li.totalPrice > 0)
      && (MatchIndex(db.vendors, c.vendor).None? ==>
           out.result.vendor.name != "" && (out.result.vendor.email.Some? ==> isEmail(out.result.vendor.email.value)))
  {
    var items := CreateInvoice(db, c, now).result.lineItems;
    forall li | li in items ensures li.description != "" && li.quantity > 0 && li.unitPrice > 0 && li.totalPrice > 0 {
      var k :| 0 <= k < |items| && items[k] == li;
      assert ValidLineItemInput(c.lineItems[k]);
    }
  }

  /** Creation only inserts: every row that existed before is still there, in place and unchanged. */
  lemma CreateOnlyInserts(db: Db, c: CreateInvoiceInput, now: Timestamp)
    ensures var out := CreateInvoice(db, c, now);
      && |out.db.vendors| >= |db.vendors| && out.db.vendors[..|db.vendors|] == db.vendors
      && |out.db.invoices| == |db.invoices| + 1 && out.db.invoices[..|db.invoices|] == db.invoices
      && |out.db.lineItems| == |db.lineItems| + |c.lineItems| && out.db.lineItems[..|db.lineItems|] == db.lineItems
  {
    var out := CreateInvoice(db, c, now);
    assert (db.vendors + [NewVendorRow(c.vendor, db.nextVendorId, now)])[..|db.vendors|] == db.vendors;
    assert out.db.invoices[..|db.invoices|] == db.invoices;
    assert out.db.lineItems[..|db.lineItems|] == db.lineItems;
  }

  /** Appending a row with the sequence's next value keeps the vendor key serial. */
  lemma AppendVendorSerial(vs: seq<Vendor>, row: Vendor, next: nat)
    requires VendorIdsSerial(vs, next) && row.id == next
    ensures VendorIdsSerial(vs + [row], next + 1)
  {
    var vs' := vs + [row];
    forall a, b | 0 <= a < b < |vs'| ensures vs'[a].id < vs'[b].id {
      assert vs'[a] == vs[a] && vs[a] in vs;
      if b < |vs| { assert vs'[b] == vs[b]; }
    }
  }

  lemma AppendInvoiceSerial(invs: seq<Invoice>, row: Invoice, next: nat)
    requires InvoiceIdsSerial(invs, next) && row.id == next
    ensures InvoiceIdsSerial(invs + [row], next + 1)
  {
    var invs' := invs + [row];
    forall a, b | 0 <= a < b < |invs'| ensures invs'[a].id < invs'[b].id {
      assert invs'[a] == invs[a] && invs[a] in invs;
      if b < |invs| { assert invs'[b] == invs[b]; }
    }
  }

  /** Appending rows numbered consecutively from the sequence's next value keeps the line-item key serial. */
  lemma AppendLineItemsSerial(items: seq<LineItem>, rows: seq<LineItem>, next: nat)
    requires LineItemIdsSerial(items, next)
    requires forall k :: 0 <= k < |rows| ==> rows[k].id == next + k
    ensures LineItemIdsSerial(items + rows, next + |rows|)
  {
    var all := items + rows;
    var n := |items|;
    forall a, b | 0 <= a < b < |all| ensures all[a].id < all[b].id {
      if b < n {
        assert all[a] == items[a] && all[b] == items[b];
      } else if a < n {
        assert all[a] == items[a] && items[a] in items;
        assert all[b] == rows[b - n];
      } else {
        assert all[a] == rows[a - n] && all[b] == rows[b - n];
      }
    }
    forall li | li in all ensures 1 <= li.id < next + |rows| {
      if li !in items {
        var k :| 0 <= k < |rows| && rows[k] == li;
      }
    }
  }

  /** Step 1 keeps the invariant, touches only the vendor table and yields a vendor that is stored. */
  lemma ResolveVendorValid(db: Db, v: VendorInput, now: Timestamp)
    requires Valid(db)
    ensures var r := ResolveVendor(db, v, now);
      && Valid(r.db)
      && r.vendor in r.db.vendors
      && r.db.invoices == db.invoices && r.db.lineItems == db.lineItems
      && r.db.nextInvoiceId == db.nextInvoiceId && r.db.nextLineItemId == db.nextLineItemId
  {
    var r := ResolveVendor(db, v, now);
    if MatchIndex(db.vendors, v).None? {
      AppendVendorSerial(db.vendors, r.vendor, db.nextVendorId);
      forall inv | inv in db.invoices ensures HasVendor(r.db.vendors, inv.vendorId) {
        var w :| w in db.vendors && w.id == inv.vendorId;
        assert w in r.db.vendors;
      }
    }
  }

  /** Steps 2 and 3 keep the invariant when the invoice references a stored vendor and every amount fits. */
  lemma InsertInvoiceValid(db: Db, invoice: Invoice, rows: seq<LineItem>)
    requires Valid(db)
    requires invoice.id == db.nextInvoiceId && HasVendor(db.vendors, invoice.vendorId) && InvoiceFits(invoice)
    requires forall k :: 0 <= k < |rows| ==> rows[k].id == db.nextLineItemId + k
    requires forall k :: 0 <= k < |rows| ==> rows[k].invoiceId == invoice.id && LineItemFits(rows[k])
    ensures Valid(db.(
      invoices := db.invoices + [invoice],
      nextInvoiceId := db.nextInvoiceId + 1,
      lineItems := db.lineItems + rows,
      nextLineItemId := db.nextLineItemId + |rows|))
  {
    var db2 := db.(
      invoices := db.invoices + [invoice],
      nextInvoiceId := db.nextInvoiceId + 1,
      lineItems := db.lineItems + rows,
      nextLineItemId := db.nextLineItemId + |rows|);
    AppendInvoiceSerial(db.invoices, invoice, db.nextInvoiceId);
    AppendLineItemsSerial(db.lineItems, rows, db.nextLineItemId);
    assert invoice in db2.invoices;
    forall li | li in db2.lineItems ensures HasInvoice(db2.invoices, li.invoiceId) && LineItemFits(li) {
      if li in db.lineItems {
        var w :| w in db.invoices && w.id == li.invoiceId;
        assert w in db2.invoices;
      } else {
        var k :| 0 <= k < |rows| && rows[k] == li;
      }
    }
  }

  /** Creating an invoice whose amounts fit their columns keeps the store invariant. */
  lemma CreatePreservesValid(db: Db, c: CreateInvoiceInput, now: Timestamp)
    requires Valid(db)
    requires CreateInputFits(c)
    ensures Valid(CreateInvoice(db, c, now).db)
  {
    var resolved := ResolveVendor(db, c.vendor, now);
    ResolveVendorValid(db, c.vendor, now);
    var db1 := resolved.db;
    var invoice := NewInvoiceRow(c, db1.nextInvoiceId, resolved.vendor.id, now);
    var rows := NewLineItemRows(c.lineItems, db1.nextLineItemId, invoice.id, now);
    forall k | 0 <= k < |rows| ensures LineItemFits(rows[k]) {
      assert LineItemInputFits(c.lineItems[k]);
    }
    InsertInvoiceValid(db1, invoice, rows);
  }

  /** Reading the new invoice back by id returns exactly what creation returned. */
  lemma CreateReadBack(db: Db, c: CreateInvoiceInput, now: Timestamp)
    requires Valid(db)
    ensures var out := CreateInvoice(db, c, now);
      GetInvoiceById(out.db, out.result.invoice.id) == Some(out.result)
  {
    var out := CreateInvoice(db, c, now);
    var resolved := ResolveVendor(db, c.vendor, now);
    ResolveVendorValid(db, c.vendor, now);
    var id := out.result.invoice.id;
    // The new invoice is found at its own position.
    AppendInvoiceSerial(db.invoices, out.result.invoice, db.nextInvoiceId);
    InvoiceIndexOf(out.db.invoices, |db.invoices|);
    // Its vendor is found at its own position.
    var k :| 0 <= k < |out.db.vendors| && out.db.vendors[k] == out.result.vendor;
    VendorIndexOf(out.db.vendors, k);
    // Exactly the new rows reference it.
    NewItemsOnly(db, out.result.lineItems, id);
  }

  /** Rows appended for a fresh invoice id are exactly the rows that reference it. */
  lemma NewItemsOnly(db: Db, rows: seq<LineItem>, id: int)
    requires Valid(db) && id == db.nextInvoiceId
    requires forall li :: li in rows ==> li.invoiceId == id
    ensures ItemsOf(db.lineItems + rows, id) == rows
  {
    forall li | li in db.lineItems ensures li.invoiceId != id {
      var w :| w in db.invoices && w.id == li.invoiceId;
    }
    ItemsOfNone(db.lineItems, id);
    ItemsOfAppend(db.lineItems, rows, id);
    ItemsOfAll(rows, id);
  }

  /**
   * Creating two invoices with the same proposed vendor, one after the other,
   * attaches both to one vendor row: the second call finds the row the first
   * one used or inserted, and the vendor table does not change again.
   */
  lemma CreateTwiceSameVendor(db: Db, c1: CreateInvoiceInput, c2: CreateInvoiceInput, now1: Timestamp, now2: Timestamp)
    requires c1.vendor == c2.vendor
    ensures var first := CreateInvoice(db, c1, now1);
      var second := CreateInvoice(first.db, c2, now2);
      && second.result.vendor == first.result.vendor
      && second.result.invoice.vendorId == first.result.invoice.vendorId
      && second.db.vendors == first.db.vendors
  {
    var first := CreateInvoice(db, c1, now1);
    var v := c1.vendor;
    match MatchIndex(db.vendors, v)
    case Some(k) =>
      assert first.db.vendors == db.vendors;
    case None =>
      var n := |db.vendors|;
      assert first.db.vendors == db.vendors + [first.result.vendor];
      assert first.db.vendors[n] == first.result.vendor;
      var m := MatchIndex(first.db.vendors, v);
      assert m == Some(n) by {
        assert VendorMatches(first.db.vendors[n], v);
        assert forall j :: 0 <= j < n ==> first.db.vendors[j] == db.vendors[j];
      }
  }
}
