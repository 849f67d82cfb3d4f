/**
 * The invoice listing: the AND of the optional status and vendor filters over
 * the invoices joined with their vendors, a limit/offset page of that sequence,
 * and each row hydrated with its line items grouped by invoice id.
 *
 * The query has no ORDER BY; the model lists invoices in table order, which is
 * ascending id.
 */
module InvoiceListing {
  import opened Wrappers
  import opened DbSchema
  import opened InputSchema
  import opened Lookup
  import opened InvoiceById

  function Min(a: int, b: int): int {
    if a <= b then a else b
  }

  /**
   * The WHERE clause: a status filter when a status is given, and a vendor
   * filter only when the vendor id is given and non-zero (a truthiness test).
   */
  predicate MatchesQuery(inv: Invoice, q: InvoicesQuery): (b: bool)
    ensures q.status.None? && (q.vendorId.None? || q.vendorId == Some(0)) ==> b
    ensures q.status.Some? && inv.status != q.status.value ==> !b
    ensures q.vendorId.Some? && q.vendorId.value != 0 && inv.vendorId != q.vendorId.value ==> !b
    ensures q.vendorId == Some(0) ==> (b <==> (q.status.None? || inv.status == q.status.value))
  {
    && (q.status.Some? ==> inv.status == q.status.value)
    && (q.vendorId.Some? && q.vendorId.value != 0 ==> inv.vendorId == q.vendorId.value)
  }

  /** The filtered inner join of invoices and vendors, before LIMIT and OFFSET. */
  function Listed(invs: seq<Invoice>, vs: seq<Vendor>, q: InvoicesQuery): (r: seq<Invoice>)
    ensures forall inv :: inv in r <==> inv in invs && MatchesQuery(inv, q) && HasVendor(vs, inv.vendorId)
  {
    if invs == [] then []
    else
      assert forall inv :: inv in invs ==> inv == invs[0] || inv in invs[1..];
      (if MatchesQuery(invs[0], q) && VendorIndex(vs, invs[0].vendorId).Some? then [invs[0]] else [])
        + Listed(invs[1..], vs, q)
  }

  /** `LIMIT limit OFFSET offset`. */
  function Page<T>(s: seq<T>, offset: nat, limit: nat): (r: seq<T>)
    ensures |r| == if offset >= |s| then 0 else Min(limit, |s| - offset)
    ensures forall k :: 0 <= k < |r| ==> r[k] == s[offset + k]
  {
    if offset >= |s| then [] else s[offset..offset + Min(limit, |s| - offset)]
  }

  /** A joined row with its vendor and the line items that reference it. */
  function Hydrate(db: Db, inv: Invoice): (d: InvoiceWithDetails)
    requires HasVendor(db.vendors, inv.vendorId)
    ensures d.invoice == inv
    ensures d.vendor in db.vendors && d.vendor.id == inv.vendorId
    ensures d.lineItems == ItemsOf(db.lineItems, inv.id)
  {
    InvoiceWithDetails(inv, db.vendors[VendorIndex(db.vendors, inv.vendorId).value], ItemsOf(db.lineItems, inv.id))
  }

  /** The invoices a list query returns, hydrated. */
  function GetInvoices(db: Db, q: InvoicesQuery): (r: seq<InvoiceWithDetails>)
    requires ValidInvoicesQuery(q)
    ensures |r| <= q.limit
    ensures forall k :: 0 <= k < |r| ==>
      && r[k].invoice in db.invoices
      && MatchesQuery(r[k].invoice, q)
      && r[k].vendor in db.vendors
      && r[k].vendor.id == r[k].invoice.vendorId
      && r[k].lineItems == ItemsOf(db.lineItems, r[k].invoice.id)
  {
    var page := Page(Listed(db.invoices, db.vendors, q), q.offset, q.limit);
    seq(|page|, k requires 0 <= k < |page| => assert page[k] in page; Hydrate(db, page[k]))
  }

  /** A sequence that hydrates each row of the page is the query's result. */
  lemma HydratedPage(db: Db, q: InvoicesQuery, r: seq<InvoiceWithDetails>)
    requires ValidInvoicesQuery(q)
    requires var page := Page(Listed(db.invoices, db.vendors, q), q.offset, q.limit);
      && |r| == |page|
      && forall k :: 0 <= k < |page| ==> page[k] in Listed(db.invoices, db.vendors, q) && r[k] == Hydrate(db, page[k])
    ensures r == GetInvoices(db, q)
  {
  }

  /** The invoice rows of a result. */
  function InvoicesOf(ds: seq<InvoiceWithDetails>): (r: seq<Invoice>)
    ensures |r| == |ds| && forall k :: 0 <= k < |ds| ==> r[k] == ds[k].invoice
  {
    seq(|ds|, k requires 0 <= k < |ds| => ds[k].invoice)
  }

  /** The result is exactly the page [offset, offset + limit) of the filtered sequence. */
  lemma ResultIsPage(db: Db, q: InvoicesQuery)
    requires ValidInvoicesQuery(q)
    ensures InvoicesOf(GetInvoices(db, q)) == Page(Listed(db.invoices, db.vendors, q), q.offset, q.limit)
  {
  }

  /** In a valid store every invoice that satisfies the filters is in the unpaginated sequence. */
  lemma EveryMatchListed(db: Db, q: InvoicesQuery, inv: Invoice)
    requires Valid(db)
    requires inv in db.invoices && MatchesQuery(inv, q)
    ensures inv in Listed(db.invoices, db.vendors, q)
  {
  }

  /** Two consecutive pages together are the page that spans both. */
  lemma ConsecutivePages<T>(s: seq<T>, offset: nat, l1: nat, l2: nat)
    ensures Page(s, offset, l1) + Page(s, offset + l1, l2) == Page(s, offset, l1 + l2)
  {
    var a, b, c := Page(s, offset, l1), Page(s, offset + l1, l2), Page(s, offset, l1 + l2);
    assert |a + b| == |c|;
    forall k | 0 <= k < |c| ensures (a + b)[k] == c[k] {
      if k < |a| {
        assert (a + b)[k] == a[k];
      } else {
        assert (a + b)[k] == b[k - |a|];
      }
    }
  }

  /** Paging through with limit l visits the whole sequence in order: the first n pages are its first n * l rows. */
  lemma {:induction false} PagesCover<T>(s: seq<T>, l: nat, n: nat)
    ensures Pages(s, l, n) == s[..Min(n * l, |s|)]
  {
    if n > 0 {
      PagesCover(s, l, n - 1);
      ConsecutivePages(s, 0, (n - 1) * l, l);
      assert (n - 1) * l + l == n * l;
    }
  }

  /** The concatenation of the first n pages of size l. */
  function Pages<T>(s: seq<T>, l: nat, n: nat): seq<T> {
    if n == 0 then [] else Pages(s, l, n - 1) + Page(s, (n - 1) * l, l)
  }

  /** With no matching invoice the result is empty. */
  lemma NoMatchEmpty(db: Db, q: InvoicesQuery)
    requires ValidInvoicesQuery(q)
    requires forall inv :: inv in db.invoices ==> !MatchesQuery(inv, q)
    ensures GetInvoices(db, q) == []
  {
    ListedNone(db.invoices, db.vendors, q);
  }

  lemma {:induction false} ListedNone(invs: seq<Invoice>, vs: seq<Vendor>, q: InvoicesQuery)
    requires forall inv :: inv in invs ==> !MatchesQuery(inv, q)
    ensures Listed(invs, vs, q) == []
  {
    if invs != [] {
      assert forall inv :: inv in invs[1..] ==> inv in invs;
      ListedNone(invs[1..], vs, q);
    }
  }

  /** A vendor id of 0 is falsy, so it filters nothing: the query behaves as if no vendor id were given. */
  lemma VendorIdZeroIgnored(db: Db, q: InvoicesQuery)
    requires ValidInvoicesQuery(q)
    requires q.vendorId == Some(0)
    ensures GetInvoices(db, q) == GetInvoices(db, q.(vendorId := None))
  {
    ListedSameFilter(db.invoices, db.vendors, q, q.(vendorId := None));
  }

  lemma {:induction false} ListedSameFilter(invs: seq<Invoice>, vs: seq<Vendor>, q1: InvoicesQuery, q2: InvoicesQuery)
    requires forall inv :: MatchesQuery(inv, q1) == MatchesQuery(inv, q2)
    ensures Listed(invs, vs, q1) == Listed(invs, vs, q2)
  {
    if invs != [] {
      ListedSameFilter(invs[1..], vs, q1, q2);
    }
  }

  /** `acc` groups the items of `s` by invoice id: each key holds exactly that id's items, in order. */
  ghost predicate GroupedBy(acc: map<int, seq<LineItem>>, s: seq<LineItem>) {
    && (forall id :: id in acc ==> acc[id] == ItemsOf(s, id) && acc[id] != [])
    && (forall id :: id !in acc ==> ItemsOf(s, id) == [])
  }

  /** Pushing one more item onto its invoice's group keeps the grouping exact. */
  lemma GroupedStep(acc: map<int, seq<LineItem>>, s: seq<LineItem>, item: LineItem)
    requires GroupedBy(acc, s)
    ensures GroupedBy(acc[item.invoiceId := (if item.invoiceId in acc then acc[item.invoiceId] else []) + [item]], s + [item])
  {
    var key := item.invoiceId;
    var acc' := acc[key := (if key in acc then acc[key] else []) + [item]];
    forall id ensures ItemsOf(s + [item], id) == ItemsOf(s, id) + (if key == id then [item] else []) {
      ItemsOfAppend(s, [item], id);
      assert ItemsOf([item], id) == (if key == id then [item] else []) + ItemsOf([], id);
    }
    forall id | id in acc' ensures acc'[id] == ItemsOf(s + [item], id) && acc'[id] != [] {
      if id != key {
        assert id in acc;
      }
    }
    forall id | id !in acc' ensures ItemsOf(s + [item], id) == [] {
      assert id !in acc && id != key;
    }
  }

  /**
   * The `reduce` that groups the selected line items by invoice id: each key
   * maps to exactly the items with that invoice id, in order, and an id that
   * is not a key has no item.
   */
  method GroupByInvoice(items: seq<LineItem>) returns (acc: map<int, seq<LineItem>>)
    ensures forall id :: id in acc ==> acc[id] == ItemsOf(items, id) && acc[id] != []
    ensures forall id :: id !in acc ==> ItemsOf(items, id) == []
  {
    acc := map[];
    for k := 0 to |items|
      invariant GroupedBy(acc, items[..k])
    {
      var item := items[k];
      var id := item.invoiceId;
      var group := if id in acc then acc[id] else [];
      GroupedStep(acc, items[..k], item);
      acc := acc[id := group + [item]];
      assert items[..k + 1] == items[..k] + [item];
    }
    assert items[..|items|] == items;
  }
}
