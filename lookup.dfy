/**
 * Row lookups and the row filters that the handlers' WHERE clauses and the
 * cascade rule select: rows by id, line items by invoice id, line items whose
 * invoice id is in a set, and the rows left after a delete. Every filter keeps
 * the table order.
 */
module Lookup {
  import opened Wrappers
  import opened DbSchema

  /** `WHERE vendors.id = id`: the position of the vendor with this id. */
  function VendorIndex(vs: seq<Vendor>, id: int): (r: Option<nat>)
    ensures r.Some? ==> r.value < |vs| && vs[r.value].id == id
    ensures r.None? <==> !HasVendor(vs, id)
  {
    if |vs| == 0 then None
    else if vs[0].id == id then Some(0)
    else
      match VendorIndex(vs[1..], id)
      case None => assert forall v :: v in vs ==> v == vs[0] || v in vs[1..]; None
      case Some(k) => Some(k + 1)
  }

  /** `WHERE invoices.id = id`: the position of the invoice with this id. */
  function InvoiceIndex(invs: seq<Invoice>, id: int): (r: Option<nat>)
    ensures r.Some? ==> r.value < |invs| && invs[r.value].id == id
    ensures r.None? <==> !HasInvoice(invs, id)
  {
    if |invs| == 0 then None
    else if invs[0].id == id then Some(0)
    else
      match InvoiceIndex(invs[1..], id)
      case None => assert forall inv :: inv in invs ==> inv == invs[0] || inv in invs[1..]; None
      case Some(k) => Some(k + 1)
  }

  /** Increasing ids are unique: two positions with the same id are one position. */
  lemma VendorIndexUnique(vs: seq<Vendor>, a: nat, b: nat)
    requires VendorIdsIncreasing(vs)
    requires a < |vs| && b < |vs| && vs[a].id == vs[b].id
    ensures a == b
  {
  }

  lemma InvoiceIndexUnique(invs: seq<Invoice>, a: nat, b: nat)
    requires InvoiceIdsIncreasing(invs)
    requires a < |invs| && b < |invs| && invs[a].id == invs[b].id
    ensures a == b
  {
  }

  /** With increasing ids the lookup by id finds the row's own position. */
  lemma VendorIndexOf(vs: seq<Vendor>, i: nat)
    requires VendorIdsIncreasing(vs) && i < |vs|
    ensures VendorIndex(vs, vs[i].id) == Some(i)
  {
    assert vs[i] in vs;
    VendorIndexUnique(vs, VendorIndex(vs, vs[i].id).value, i);
  }

  lemma InvoiceIndexOf(invs: seq<Invoice>, i: nat)
    requires InvoiceIdsIncreasing(invs) && i < |invs|
    ensures InvoiceIndex(invs, invs[i].id) == Some(i)
  {
    assert invs[i] in invs;
    InvoiceIndexUnique(invs, InvoiceIndex(invs, invs[i].id).value, i);
  }

  /** `WHERE line_items.invoice_id = invoiceId`, in table order. */
  function ItemsOf(items: seq<LineItem>, invoiceId: int): (r: seq<LineItem>)
    ensures forall li :: li in r <==> li in items && li.invoiceId == invoiceId
    ensures |r| <= |items|
  {
    if items == [] then []
    else
      assert forall li :: li in items ==> li == items[0] || li in items[1..];
      (if items[0].invoiceId == invoiceId then [items[0]] else []) + ItemsOf(items[1..], invoiceId)
  }

  /** `WHERE line_items.invoice_id IN ids`, in table order. */
  function ItemsIn(items: seq<LineItem>, ids: set<int>): (r: seq<LineItem>)
    ensures forall li :: li in r <==> li in items && li.invoiceId in ids
  {
    if items == [] then []
    else
      assert forall li :: li in items ==> li == items[0] || li in items[1..];
      (if items[0].invoiceId in ids then [items[0]] else []) + ItemsIn(items[1..], ids)
  }

  /** The line items that survive the cascade of deleting invoice `invoiceId`. */
  function ItemsNotOf(items: seq<LineItem>, invoiceId: int): (r: seq<LineItem>)
    ensures forall li :: li in r <==> li in items && li.invoiceId != invoiceId
    ensures |r| <= |items|
  {
    if items == [] then []
    else
      assert forall li :: li in items ==> li == items[0] || li in items[1..];
      (if items[0].invoiceId != invoiceId then [items[0]] else []) + ItemsNotOf(items[1..], invoiceId)
  }

  /** `DELETE FROM invoices WHERE id = id`: the rows that remain. */
  function InvoicesExcept(invs: seq<Invoice>, id: int): (r: seq<Invoice>)
    ensures forall inv :: inv in r <==> inv in invs && inv.id != id
  {
    if invs == [] then []
    else
      assert forall inv :: inv in invs ==> inv == invs[0] || inv in invs[1..];
      (if invs[0].id != id then [invs[0]] else []) + InvoicesExcept(invs[1..], id)
  }

  lemma {:induction false} ItemsOfAppend(a: seq<LineItem>, b: seq<LineItem>, invoiceId: int)
    ensures ItemsOf(a + b, invoiceId) == ItemsOf(a, invoiceId) + ItemsOf(b, invoiceId)
  {
    if a == [] {
      assert a + b == b;
    } else {
      assert (a + b)[1..] == a[1..] + b;
      ItemsOfAppend(a[1..], b, invoiceId);
    }
  }

  /** A filter that selects no row yields the empty sequence. */
  lemma {:induction false} ItemsOfNone(items: seq<LineItem>, invoiceId: int)
    requires forall li :: li in items ==> li.invoiceId != invoiceId
    ensures ItemsOf(items, invoiceId) == []
  {
    if items != [] {
      assert forall li :: li in items[1..] ==> li in items;
      ItemsOfNone(items[1..], invoiceId);
    }
  }

  /** A filter that selects every row yields the whole sequence. */
  lemma {:induction false} ItemsOfAll(items: seq<LineItem>, invoiceId: int)
    requires forall li :: li in items ==> li.invoiceId == invoiceId
    ensures ItemsOf(items, invoiceId) == items
  {
    if items != [] {
      assert forall li :: li in items[1..] ==> li in items;
      ItemsOfAll(items[1..], invoiceId);
      assert items == [items[0]] + items[1..];
    }
  }

  /** Selecting by a set of invoice ids and then by one of them selects the same items as selecting by that one. */
  lemma {:induction false} ItemsOfItemsIn(items: seq<LineItem>, ids: set<int>, invoiceId: int)
    requires invoiceId in ids
    ensures ItemsOf(ItemsIn(items, ids), invoiceId) == ItemsOf(items, invoiceId)
  {
    if items != [] {
      ItemsOfItemsIn(items[1..], ids, invoiceId);
      var head := if items[0].invoiceId in ids then [items[0]] else [];
      ItemsOfAppend(head, ItemsIn(items[1..], ids), invoiceId);
    }
  }

  /** The cascade leaves the line items of every other invoice exactly as they were. */
  lemma {:induction false} ItemsOfItemsNotOf(items: seq<LineItem>, deleted: int, invoiceId: int)
    requires invoiceId != deleted
    ensures ItemsOf(ItemsNotOf(items, deleted), invoiceId) == ItemsOf(items, invoiceId)
  {
    if items != [] {
      ItemsOfItemsNotOf(items[1..], deleted, invoiceId);
      var head := if items[0].invoiceId != deleted then [items[0]] else [];
      ItemsOfAppend(head, ItemsNotOf(items[1..], deleted), invoiceId);
    }
  }

  /** Removing the row at the position of an id no other row has is the same as deleting by that id. */
  lemma {:induction false} RemoveAtIsExcept(invs: seq<Invoice>, i: nat)
    requires i < |invs|
    requires forall j :: 0 <= j < |invs| && j != i ==> invs[j].id != invs[i].id
    ensures invs[..i] + invs[i + 1..] == InvoicesExcept(invs, invs[i].id)
  {
    var id := invs[i].id;
    var tail := invs[1..];
    if i == 0 {
      assert invs[..0] + invs[1..] == tail;
      forall inv | inv in tail ensures inv.id != id {
        var k :| 0 <= k < |tail| && tail[k] == inv;
        assert invs[k + 1] == inv;
      }
      ExceptAbsent(tail, id);
    } else {
      assert tail[i - 1] == invs[i];
      forall j | 0 <= j < |tail| && j != i - 1 ensures tail[j].id != id {
        assert tail[j] == invs[j + 1];
      }
      RemoveAtIsExcept(tail, i - 1);
      assert invs[..i] + invs[i + 1..] == [invs[0]] + (tail[..i - 1] + tail[i..]);
    }
  }

  lemma {:induction false} ExceptAbsent(invs: seq<Invoice>, id: int)
    requires forall inv :: inv in invs ==> inv.id != id
    ensures InvoicesExcept(invs, id) == invs
  {
    if invs != [] {
      assert invs[0] in invs;
      assert forall inv :: inv in invs[1..] ==> inv in invs;
      ExceptAbsent(invs[1..], id);
      assert invs == [invs[0]] + invs[1..];
    }
  }

  /** With increasing ids no other row shares the id of the row at `i`. */
  lemma OnlyRowWithId(invs: seq<Invoice>, i: nat)
    requires InvoiceIdsIncreasing(invs) && i < |invs|
    ensures forall j :: 0 <= j < |invs| && j != i ==> invs[j].id != invs[i].id
  {
    forall j | 0 <= j < |invs| && j != i ensures invs[j].id != invs[i].id {
      if j < i { assert invs[j].id < invs[i].id; } else { assert invs[i].id < invs[j].id; }
    }
  }

  /** A strictly increasing sequence of ids stays so after dropping its first row. */
  lemma ItemsTailIncreasing(items: seq<LineItem>)
    requires LineItemIdsIncreasing(items)
    requires items != []
    ensures LineItemIdsIncreasing(items[1..])
  {
    var tail := items[1..];
    forall a, b | 0 <= a < b < |tail| ensures tail[a].id < tail[b].id {
      assert tail[a] == items[a + 1] && tail[b] == items[b + 1];
    }
  }

  /** Putting a row with a smaller id in front of a strictly increasing sequence keeps it strictly increasing. */
  lemma ItemsConsIncreasing(x: LineItem, rest: seq<LineItem>)
    requires LineItemIdsIncreasing(rest)
    requires forall li :: li in rest ==> x.id < li.id
    ensures LineItemIdsIncreasing([x] + rest)
  {
    var r := [x] + rest;
    forall a, b | 0 <= a < b < |r| ensures r[a].id < r[b].id {
      assert r[b] == rest[b - 1];
      if a == 0 {
        assert rest[b - 1] in rest;
      } else {
        assert r[a] == rest[a - 1];
      }
    }
  }

  /** Deleting rows keeps the line-item ids strictly increasing. */
  lemma {:induction false} ItemsNotOfIncreasing(items: seq<LineItem>, invoiceId: int)
    requires LineItemIdsIncreasing(items)
    ensures LineItemIdsIncreasing(ItemsNotOf(items, invoiceId))
  {
    if items != [] {
      var tail := items[1..];
      ItemsTailIncreasing(items);
      ItemsNotOfIncreasing(tail, invoiceId);
      var rest := ItemsNotOf(tail, invoiceId);
      if items[0].invoiceId != invoiceId {
        forall li | li in rest ensures items[0].id < li.id {
          var k :| 0 <= k < |tail| && tail[k] == li;
          assert items[k + 1] == li;
        }
        ItemsConsIncreasing(items[0], rest);
        assert ItemsNotOf(items, invoiceId) == [items[0]] + rest;
      } else {
        assert ItemsNotOf(items, invoiceId) == rest;
      }
    }
  }

  /** Deleting rows keeps the serial-key property of the line-items table. */
  lemma ItemsNotOfSerial(items: seq<LineItem>, invoiceId: int, next: nat)
    requires LineItemIdsSerial(items, next)
    ensures LineItemIdsSerial(ItemsNotOf(items, invoiceId), next)
  {
    ItemsNotOfIncreasing(items, invoiceId);
  }

  /** Removing one row keeps the invoice ids strictly increasing. */
  lemma RemoveAtIncreasing(invs: seq<Invoice>, i: nat)
    requires InvoiceIdsIncreasing(invs)
    requires i < |invs|
    ensures InvoiceIdsIncreasing(invs[..i] + invs[i + 1..])
  {
    var r := invs[..i] + invs[i + 1..];
    forall a, b | 0 <= a < b < |r| ensures r[a].id < r[b].id {
      var a' := if a < i then a else a + 1;
      var b' := if b < i then b else b + 1;
      assert r[a] == invs[a'] && r[b] == invs[b'];
    }
  }

  /** Deleting a row keeps the serial-key property of the invoices table. */
  lemma ExceptSerial(invs: seq<Invoice>, i: nat, next: nat)
    requires InvoiceIdsSerial(invs, next)
    requires i < |invs|
    ensures InvoiceIdsSerial(InvoicesExcept(invs, invs[i].id), next)
  {
    OnlyRowWithId(invs, i);
    RemoveAtIsExcept(invs, i);
    RemoveAtIncreasing(invs, i);
  }
}
