/**
  The `advertisements` table of src/simple_ads.py as an in-memory sequence of
  rows in insertion order, keyed by the unique `link` column. The pure functions
  give the meaning of each SQL statement the program issues; the class
  `AdTable` holds the rows and performs those statements in place.
*/
module AdStore {

  import opened Wrappers

  /** One row. `brand == None` is SQL NULL; `id` and `timestamp` are not modelled. */
  datatype Ad = Ad(
    title: string,
    description: Option<string>,
    link: string,
    price: real,
    brand: Option<string>,
    brandNotified: int)

  /** A row of the "unprocessed" query: `(description, link)`. */
  datatype UnprocessedAd = UnprocessedAd(description: string, link: string)

  /** A row of the comparison query: `(title, description, link, price, brand)`. */
  datatype PendingAd = PendingAd(title: string, description: Option<string>, link: string, price: real, brand: string)

  /** The UNIQUE constraint on `link`. */
  ghost predicate UniqueLinks(rows: seq<Ad>) {
    forall i, j :: 0 <= i < j < |rows| ==> rows[i].link != rows[j].link
  }

  function Links(rows: seq<Ad>): seq<string> {
    if rows == [] then [] else Links(rows[..|rows| - 1]) + [rows[|rows| - 1].link]
  }

  /** The row that `save_advertisement` inserts: brand NULL, not yet notified. */
  function NewAd(title: string, description: Option<string>, link: string, price: real): Ad {
    Ad(title, description, link, price, None, 0)
  }

  /** `INSERT OR IGNORE` of a new row. */
  function InsertOrIgnore(rows: seq<Ad>, title: string, description: Option<string>, link: string, price: real): seq<Ad> {
    if link in Links(rows) then rows else rows + [NewAd(title, description, link, price)]
  }

  /** Every row whose link is `link` gets `brand`; the other rows are kept. */
  function WithBrand(rows: seq<Ad>, link: string, brand: string): seq<Ad> {
    if rows == [] then []
    else
      var last := rows[|rows| - 1];
      WithBrand(rows[..|rows| - 1], link, brand) + [if last.link == link then last.(brand := Some(brand)) else last]
  }

  /** Every row whose link is `link` gets notified status `status`; the other rows are kept. */
  function WithNotified(rows: seq<Ad>, link: string, status: int): seq<Ad> {
    if rows == [] then []
    else
      var last := rows[|rows| - 1];
      WithNotified(rows[..|rows| - 1], link, status) + [if last.link == link then last.(brandNotified := status) else last]
  }

  /** No brand yet (NULL or empty) and a non-empty description. */
  predicate IsUnprocessed(a: Ad) {
    (a.brand == None || a.brand == Some("")) && a.description.Some? && a.description.value != ""
  }

  /** A non-empty brand and not yet notified. */
  predicate IsPending(a: Ad) {
    a.brand.Some? && a.brand.value != "" && a.brandNotified == 0
  }

  function AsUnprocessed(a: Ad): UnprocessedAd
    requires IsUnprocessed(a)
  {
    UnprocessedAd(a.description.value, a.link)
  }

  function AsPending(a: Ad): PendingAd
    requires IsPending(a)
  {
    PendingAd(a.title, a.description, a.link, a.price, a.brand.value)
  }

  /** `get_unprocessed_ads_for_brand_identification`: every result comes from a qualifying row. */
  function UnprocessedAds(rows: seq<Ad>): (r: seq<UnprocessedAd>)
    ensures |r| <= |rows|
    ensures forall u | u in r :: exists a | a in rows :: IsUnprocessed(a) && u == AsUnprocessed(a)
  {
    if rows == [] then []
    else
      var prefix, last := rows[..|rows| - 1], rows[|rows| - 1];
      var r := UnprocessedAds(prefix) + (if IsUnprocessed(last) then [AsUnprocessed(last)] else []);
      assert forall a | a in prefix :: a in rows;
      r
  }

  /** `get_ads_for_brand_comparison`: every result comes from a qualifying row. */
  function PendingAds(rows: seq<Ad>): (r: seq<PendingAd>)
    ensures |r| <= |rows|
    ensures forall p | p in r :: exists a | a in rows :: IsPending(a) && p == AsPending(a)
  {
    if rows == [] then []
    else
      var prefix, last := rows[..|rows| - 1], rows[|rows| - 1];
      var r := PendingAds(prefix) + (if IsPending(last) then [AsPending(last)] else []);
      assert forall a | a in prefix :: a in rows;
      r
  }

  // ----- Lemmas about links and the SQL statements -----

  lemma {:induction false} LinksAt(rows: seq<Ad>)
    ensures |Links(rows)| == |rows|
    ensures forall i :: 0 <= i < |rows| ==> Links(rows)[i] == rows[i].link
  {
    if rows != [] {
      LinksAt(rows[..|rows| - 1]);
    }
  }

  lemma InLinks(rows: seq<Ad>, link: string)
    ensures link in Links(rows) <==> exists i :: 0 <= i < |rows| && rows[i].link == link
  {
    LinksAt(rows);
  }

  /**
    `save_advertisement` keeps `link` unique, and afterwards exactly one row has
    the link: the old one, or the new row with brand NULL and brand_notified 0.
  */
  lemma InsertOrIgnoreUnique(rows: seq<Ad>, title: string, description: Option<string>, link: string, price: real)
    requires UniqueLinks(rows)
    ensures var rows' := InsertOrIgnore(rows, title, description, link, price);
      && UniqueLinks(rows')
      && (exists i :: 0 <= i < |rows'| && rows'[i].link == link)
      && (link in Links(rows) ==> rows' == rows)
      && (link !in Links(rows) ==> rows' == rows + [Ad(title, description, link, price, None, 0)])
  {
    InLinks(rows, link);
    var rows' := InsertOrIgnore(rows, title, description, link, price);
    if link !in Links(rows) {
      assert rows'[|rows|].link == link;
    }
  }

  /** The brand update changes only the brand of the rows whose link matches. */
  lemma {:induction false} WithBrandAt(rows: seq<Ad>, link: string, brand: string)
    ensures |WithBrand(rows, link, brand)| == |rows|
    ensures forall i :: 0 <= i < |rows| ==>
      WithBrand(rows, link, brand)[i] == if rows[i].link == link then rows[i].(brand := Some(brand)) else rows[i]
  {
    if rows != [] {
      WithBrandAt(rows[..|rows| - 1], link, brand);
    }
  }

  /** The notified-status update changes only `brand_notified` of the rows whose link matches. */
  lemma {:induction false} WithNotifiedAt(rows: seq<Ad>, link: string, status: int)
    ensures |WithNotified(rows, link, status)| == |rows|
    ensures forall i :: 0 <= i < |rows| ==>
      WithNotified(rows, link, status)[i] == if rows[i].link == link then rows[i].(brandNotified := status) else rows[i]
  {
    if rows != [] {
      WithNotifiedAt(rows[..|rows| - 1], link, status);
    }
  }

  /** Both updates are no-ops when no row has the link. */
  lemma UpdatesOfAbsentLink(rows: seq<Ad>, link: string, brand: string, status: int)
    requires link !in Links(rows)
    ensures WithBrand(rows, link, brand) == rows
    ensures WithNotified(rows, link, status) == rows
  {
    InLinks(rows, link);
    WithBrandAt(rows, link, brand);
    WithNotifiedAt(rows, link, status);
  }

  /** The brand update never changes the links, so it keeps them unique. */
  lemma WithBrandKeepsLinks(rows: seq<Ad>, link: string, brand: string)
    ensures Links(WithBrand(rows, link, brand)) == Links(rows)
    ensures UniqueLinks(rows) ==> UniqueLinks(WithBrand(rows, link, brand))
  {
    var rows' := WithBrand(rows, link, brand);
    WithBrandAt(rows, link, brand);
    LinksAt(rows);
    LinksAt(rows');
    assert forall i | 0 <= i < |rows| :: rows'[i].link == rows[i].link;
  }

  /** The notified-status update never changes the links, so it keeps them unique. */
  lemma WithNotifiedKeepsLinks(rows: seq<Ad>, link: string, status: int)
    ensures Links(WithNotified(rows, link, status)) == Links(rows)
    ensures UniqueLinks(rows) ==> UniqueLinks(WithNotified(rows, link, status))
  {
    var rows' := WithNotified(rows, link, status);
    WithNotifiedAt(rows, link, status);
    LinksAt(rows);
    LinksAt(rows');
    assert forall i | 0 <= i < |rows| :: rows'[i].link == rows[i].link;
  }

  /** Every row that qualifies for the unprocessed query appears in its result. */
  lemma {:induction false} UnprocessedAdsComplete(rows: seq<Ad>, i: nat)
    requires i < |rows| && IsUnprocessed(rows[i])
    ensures AsUnprocessed(rows[i]) in UnprocessedAds(rows)
  {
    if i < |rows| - 1 {
      UnprocessedAdsComplete(rows[..|rows| - 1], i);
    }
  }

  /** Every row that qualifies for the comparison query appears in its result. */
  lemma {:induction false} PendingAdsComplete(rows: seq<Ad>, i: nat)
    requires i < |rows| && IsPending(rows[i])
    ensures AsPending(rows[i]) in PendingAds(rows)
  {
    if i < |rows| - 1 {
      PendingAdsComplete(rows[..|rows| - 1], i);
    }
  }

  /** With unique links, a row's link is in a query's result exactly when the row qualifies. */
  lemma QueriesExactly(rows: seq<Ad>, i: nat)
    requires UniqueLinks(rows) && i < |rows|
    ensures (exists u | u in UnprocessedAds(rows) :: u.link == rows[i].link) <==> IsUnprocessed(rows[i])
    ensures (exists p | p in PendingAds(rows) :: p.link == rows[i].link) <==> IsPending(rows[i])
  {
    if IsUnprocessed(rows[i]) {
      UnprocessedAdsComplete(rows, i);
    }
    if IsPending(rows[i]) {
      PendingAdsComplete(rows, i);
    }
  }

  /** With unique links, each query returns every link at most once. */
  lemma {:induction false} QueryLinksDistinct(rows: seq<Ad>)
    requires UniqueLinks(rows)
    ensures var r := UnprocessedAds(rows); forall i, j | 0 <= i < j < |r| :: r[i].link != r[j].link
    ensures var r := PendingAds(rows); forall i, j | 0 <= i < j < |r| :: r[i].link != r[j].link
  {
    if rows != [] {
      var prefix, last := rows[..|rows| - 1], rows[|rows| - 1];
      QueryLinksDistinct(prefix);
      assert forall i, j | 0 <= i < j < |UnprocessedAds(prefix)| :: UnprocessedAds(prefix)[i].link != UnprocessedAds(prefix)[j].link;
      assert forall i, j | 0 <= i < j < |PendingAds(prefix)| :: PendingAds(prefix)[i].link != PendingAds(prefix)[j].link;
      forall a | a in prefix
        ensures a.link != last.link
      {
        var k :| 0 <= k < |prefix| && prefix[k] == a;
        assert rows[k] == a;
      }
      var u0, p0 := UnprocessedAds(prefix), PendingAds(prefix);
      assert forall i | 0 <= i < |u0| :: u0[i].link != last.link by {
        forall i | 0 <= i < |u0| ensures u0[i].link != last.link {
          assert u0[i] in u0;
        }
      }
      assert forall i | 0 <= i < |p0| :: p0[i].link != last.link by {
        forall i | 0 <= i < |p0| ensures p0[i].link != last.link {
          assert p0[i] in p0;
        }
      }
      var ur := UnprocessedAds(rows);
      assert ur == u0 + (if IsUnprocessed(last) then [AsUnprocessed(last)] else []);
      forall i, j | 0 <= i < j < |ur|
        ensures ur[i].link != ur[j].link
      {
        assert ur[i] == u0[i];
        if j < |u0| {
          assert ur[j] == u0[j];
        } else {
          assert ur[j].link == last.link;
        }
      }
      var pr := PendingAds(rows);
      assert pr == p0 + (if IsPending(last) then [AsPending(last)] else []);
      forall i, j | 0 <= i < j < |pr|
        ensures pr[i].link != pr[j].link
      {
        assert pr[i] == p0[i];
        if j < |p0| {
          assert pr[j] == p0[j];
        } else {
          assert pr[j].link == last.link;
        }
      }
    }
  }

  /** With unique links, no advertisement is in both query results. */
  lemma QueriesDisjoint(rows: seq<Ad>)
    requires UniqueLinks(rows)
    ensures forall u, p | u in UnprocessedAds(rows) && p in PendingAds(rows) :: u.link != p.link
  {
    forall u, p | u in UnprocessedAds(rows) && p in PendingAds(rows)
      ensures u.link != p.link
    {
      var a :| a in rows && IsUnprocessed(a) && u == AsUnprocessed(a);
      var b :| b in rows && IsPending(b) && p == AsPending(b);
      if a != b {
        var i :| 0 <= i < |rows| && rows[i] == a;
        var j :| 0 <= j < |rows| && rows[j] == b;
        assert i != j;
      }
    }
  }

  /** `set_brand` with a non-empty brand takes the row out of the unprocessed query. */
  lemma SetBrandLeavesUnprocessed(rows: seq<Ad>, link: string, brand: string)
    requires brand != ""
    ensures forall u | u in UnprocessedAds(WithBrand(rows, link, brand)) :: u.link != link
  {
    WithBrandAt(rows, link, brand);
    var rows' := WithBrand(rows, link, brand);
    forall u | u in UnprocessedAds(rows')
      ensures u.link != link
    {
      var a :| a in rows' && IsUnprocessed(a) && u == AsUnprocessed(a);
      var i :| 0 <= i < |rows'| && rows'[i] == a;
    }
  }

  /**
    `set_notified(link, 1)` takes the row out of the comparison query and
    `set_notified(link, 0)` brings it back, when its brand is non-empty.
  */
  lemma SetNotifiedPending(rows: seq<Ad>, i: nat, status: int)
    requires UniqueLinks(rows) && i < |rows|
    requires rows[i].brand.Some? && rows[i].brand.value != ""
    ensures var rows' := WithNotified(rows, rows[i].link, status);
      (exists p | p in PendingAds(rows') :: p.link == rows[i].link) <==> status == 0
  {
    var rows' := WithNotified(rows, rows[i].link, status);
    WithNotifiedAt(rows, rows[i].link, status);
    WithNotifiedKeepsLinks(rows, rows[i].link, status);
    QueriesExactly(rows', i);
  }

  /**
    The table. `Valid` is the UNIQUE constraint on `link`; every method performs
    one SQL statement of the program, as the function of the same meaning above.
  */
  class AdTable {

    var rows: seq<Ad>

    ghost predicate Valid()
      reads this
    {
      UniqueLinks(rows)
    }

    /**
      The table of a fresh database. The table of an existing database file is
      any table meeting `Valid()`, which the UNIQUE constraint on `link` ensures;
      every method here starts from such a table.
    */
    constructor ()
      ensures Valid() && rows == []
    {
      rows := [];
    }

    /** `save_advertisement`: insert-or-ignore; reports whether a row was added. */
    method SaveAdvertisement(title: string, description: Option<string>, link: string, price: real) returns (added: bool)
      requires Valid()
      modifies this
      ensures Valid()
      ensures added <==> link !in Links(old(rows))
      ensures rows == InsertOrIgnore(old(rows), title, description, link, price)
    {
      InsertOrIgnoreUnique(rows, title, description, link, price);
      added := link !in Links(rows);
      rows := InsertOrIgnore(rows, title, description, link, price);
    }

    /** `update_advertisement_brand` */
    method UpdateBrand(link: string, brand: string)
      requires Valid()
      modifies this
      ensures Valid()
      ensures rows == WithBrand(old(rows), link, brand)
    {
      WithBrandKeepsLinks(rows, link, brand);
      rows := WithBrand(rows, link, brand);
    }

    /** `update_advertisement_brand_notified_status` */
    method UpdateNotifiedStatus(link: string, status: int)
      requires Valid()
      modifies this
      ensures Valid()
      ensures rows == WithNotified(old(rows), link, status)
    {
      WithNotifiedKeepsLinks(rows, link, status);
      rows := WithNotified(rows, link, status);
    }

    /** `get_unprocessed_ads_for_brand_identification` */
    method GetUnprocessedAds() returns (r: seq<UnprocessedAd>)
      ensures r == UnprocessedAds(rows)
    {
      r := UnprocessedAds(rows);
    }

    /** `get_ads_for_brand_comparison` */
    method GetAdsForComparison() returns (r: seq<PendingAd>)
      ensures r == PendingAds(rows)
    {
      r := PendingAds(rows);
    }
  }
}
