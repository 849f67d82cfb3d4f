/**
 * The vendor listing: every vendor, ordered by name ascending. Names compare
 * lexicographically by character code; database collations are outside the
 * model. The database does not order vendors with equal names; the model keeps
 * them in table order.
 */
module VendorListing {
  import opened DbSchema

  /** Lexicographic order on names. */
  predicate NameLe(a: string, b: string) {
    |a| == 0 || (|b| > 0 && (a[0] < b[0] || (a[0] == b[0] && NameLe(a[1..], b[1..]))))
  }

  lemma {:induction false} NameLeTotal(a: string, b: string)
    ensures NameLe(a, b) || NameLe(b, a)
  {
    if |a| > 0 && |b| > 0 && a[0] == b[0] {
      NameLeTotal(a[1..], b[1..]);
    }
  }

  lemma {:induction false} NameLeTransitive(a: string, b: string, c: string)
    requires NameLe(a, b) && NameLe(b, c)
    ensures NameLe(a, c)
  {
    if |a| > 0 && a[0] == b[0] && b[0] == c[0] {
      NameLeTransitive(a[1..], b[1..], c[1..]);
    }
  }

  lemma {:induction false} NameLeAntisymmetric(a: string, b: string)
    requires NameLe(a, b) && NameLe(b, a)
    ensures a == b
  {
    if |a| > 0 {
      NameLeAntisymmetric(a[1..], b[1..]);
      assert a == [a[0]] + a[1..] && b == [b[0]] + b[1..];
    }
  }

  ghost predicate SortedByName(vs: seq<Vendor>) {
    forall i, j :: 0 <= i < j < |vs| ==> NameLe(vs[i].name, vs[j].name)
  }

  /** Inserts a vendor into a name-sorted sequence, just before the first vendor whose name is not smaller. */
  function InsertByName(v: Vendor, vs: seq<Vendor>): (r: seq<Vendor>)
    requires SortedByName(vs)
    ensures SortedByName(r)
    ensures multiset(r) == multiset(vs) + multiset{v}
  {
    if vs == [] then [v]
    else if NameLe(v.name, vs[0].name) then
      PrependSorted(v, vs);
      [v] + vs
    else
      var rest := InsertByName(v, vs[1..]);
      assert vs == [vs[0]] + vs[1..];
      NameLeTotal(v.name, vs[0].name);
      HeadBelowRest(vs, v, rest);
      ConsSorted(vs[0], rest);
      [vs[0]] + rest
  }

  /** A vendor no greater than the head of a sorted sequence can go in front of it. */
  lemma PrependSorted(v: Vendor, vs: seq<Vendor>)
    requires SortedByName(vs) && vs != [] && NameLe(v.name, vs[0].name)
    ensures SortedByName([v] + vs)
  {
    forall j | 0 < j < |vs| + 1 ensures NameLe(v.name, ([v] + vs)[j].name) {
      if j > 1 { NameLeTransitive(v.name, vs[0].name, vs[j - 1].name); }
    }
  }

  /** The head of a sorted sequence is below every vendor of the tail and below `v`. */
  lemma HeadBelowRest(vs: seq<Vendor>, v: Vendor, rest: seq<Vendor>)
    requires SortedByName(vs) && vs != [] && NameLe(vs[0].name, v.name)
    requires multiset(rest) == multiset(vs[1..]) + multiset{v}
    ensures forall w :: w in multiset(rest) ==> NameLe(vs[0].name, w.name)
  {
    forall w | w in multiset(rest) ensures NameLe(vs[0].name, w.name) {
      if w != v {
        assert w in vs[1..];
        var j :| 0 <= j < |vs[1..]| && vs[1..][j] == w;
        assert vs[j + 1] == w;
      }
    }
  }

  /** A vendor below every element of a sorted sequence can go in front of it. */
  lemma ConsSorted(x: Vendor, rest: seq<Vendor>)
    requires SortedByName(rest)
    requires forall w :: w in multiset(rest) ==> NameLe(x.name, w.name)
    ensures SortedByName([x] + rest)
  {
    forall i, j | 0 <= i < j < |rest| + 1 ensures NameLe(([x] + rest)[i].name, ([x] + rest)[j].name) {
      if i == 0 {
        assert rest[j - 1] in multiset(rest);
      }
    }
  }

  /** Insertion sort by name; vendors with equal names keep their table order. */
  function SortByName(vs: seq<Vendor>): (r: seq<Vendor>)
    ensures SortedByName(r)
    ensures multiset(r) == multiset(vs)
  {
    if vs == [] then []
    else
      assert vs == [vs[0]] + vs[1..];
      InsertByName(vs[0], SortByName(vs[1..]))
  }

  /** `SELECT * FROM vendors ORDER BY name ASC`. */
  function GetVendors(db: Db): (r: seq<Vendor>)
    ensures SortedByName(r)
    ensures multiset(r) == multiset(db.vendors)
  {
    SortByName(db.vendors)
  }

  /** Every stored vendor appears in the listing exactly as often as in the table (once, in a valid store), and nothing else does. */
  lemma GetVendorsIsPermutation(db: Db, v: Vendor)
    ensures multiset(GetVendors(db))[v] == multiset(db.vendors)[v]
    ensures |GetVendors(db)| == |db.vendors|
    ensures v in GetVendors(db) <==> v in db.vendors
  {
    var r := GetVendors(db);
    assert |multiset(r)| == |multiset(db.vendors)|;
    assert v in r <==> v in multiset(r);
    assert v in db.vendors <==> v in multiset(db.vendors);
  }

  /** In a valid store each vendor occurs once in the table, so once in the listing. */
  lemma GetVendorsOnce(db: Db, v: Vendor)
    requires Valid(db)
    requires v in db.vendors
    ensures multiset(GetVendors(db))[v] == 1
  {
    OccursOnce(db.vendors, v);
  }

  lemma {:induction false} OccursOnce(vs: seq<Vendor>, v: Vendor)
    requires VendorIdsIncreasing(vs)
    requires v in vs
    ensures multiset(vs)[v] == 1
  {
    var tail := vs[1..];
    assert vs == [vs[0]] + tail;
    if v == vs[0] {
      assert multiset(tail)[v] == 0;
    } else {
      assert VendorIdsIncreasing(tail) by {
        forall a, b | 0 <= a < b < |tail| ensures tail[a].id < tail[b].id {
          assert tail[a] == vs[a + 1] && tail[b] == vs[b + 1];
        }
      }
      OccursOnce(tail, v);
    }
  }

  /** Without vendors the listing is empty. */
  lemma GetVendorsEmpty(db: Db)
    requires db.vendors == []
    ensures GetVendors(db) == []
  {
  }
}
