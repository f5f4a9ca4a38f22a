/**
  The phases of one round of the main loop of src/simple_ads.py: store the
  fetched listings that have a price, classify the unprocessed advertisements,
  and notify about those whose brand matches the watch list. Every external
  outcome (listings, classifier answers, Telegram deliveries) is a parameter.
*/
module Workflow {

  import opened Wrappers
  import opened AdStore
  import opened BrandParse
  import opened WatchMatch
  import opened Classifier
  import opened Notifier

  /** A listing from the marketplace; `price == None` is a listing without a price. */
  datatype Listing = Listing(title: string, description: Option<string>, link: string, price: Option<real>)

  // ===== Fetch: store every listing that has a price =====

  /** The rows after the fetch loop has offered `listings` to `save_advertisement`. */
  function Stored(rows: seq<Ad>, listings: seq<Listing>): seq<Ad> {
    if listings == [] then rows
    else
      var before, l := Stored(rows, listings[..|listings| - 1]), listings[|listings| - 1];
      if l.price.None? then before else InsertOrIgnore(before, l.title, l.description, l.link, l.price.value)
  }

  /** The fetch loop of `scrape_and_process_ads`. */
  method FetchPhase(table: AdTable, listings: seq<Listing>)
    requires table.Valid()
    modifies table
    ensures table.Valid()
    ensures table.rows == Stored(old(table.rows), listings)
  {
    for i := 0 to |listings|
      invariant table.Valid()
      invariant table.rows == Stored(old(table.rows), listings[..i])
    {
      assert listings[..i + 1][..i] == listings[..i];
      var listing := listings[i];
      if listing.price.None? {
        continue;
      }
      var _ := table.SaveAdvertisement(listing.title, listing.description, listing.link, listing.price.value);
    }
    assert listings[..|listings|] == listings;
  }

  /**
    The fetch phase never changes or removes a row, and every row it adds is the
    new row of a listing that has a price.
  */
  lemma {:induction false} FetchAddsOnlyPricedListings(rows: seq<Ad>, listings: seq<Listing>)
    ensures |rows| <= |Stored(rows, listings)| && Stored(rows, listings)[..|rows|] == rows
    ensures forall k | |rows| <= k < |Stored(rows, listings)| ::
      exists l | l in listings :: l.price.Some? && Stored(rows, listings)[k] == NewAd(l.title, l.description, l.link, l.price.value)
  {
    if listings != [] {
      var init := listings[..|listings| - 1];
      FetchAddsOnlyPricedListings(rows, init);
      assert forall l | l in init :: l in listings;
    }
  }

  /** After the fetch phase, the link of every listing with a price is in the table. */
  lemma {:induction false} FetchStoresEveryPricedLink(rows: seq<Ad>, listings: seq<Listing>)
    ensures forall l | l in listings && l.price.Some? :: l.link in Links(Stored(rows, listings))
  {
    if listings != [] {
      var init, last := listings[..|listings| - 1], listings[|listings| - 1];
      FetchStoresEveryPricedLink(rows, init);
      var before := Stored(rows, init);
      if last.price.Some? {
        var after := InsertOrIgnore(before, last.title, last.description, last.link, last.price.value);
        assert after == Stored(rows, listings);
        LinksAt(before);
        LinksAt(after);
        forall x | x in Links(before)
          ensures x in Links(after)
        {
          var k :| 0 <= k < |Links(before)| && Links(before)[k] == x;
          assert after[k] == before[k];
        }
        if last.link !in Links(before) {
          assert Links(after)[|before|] == last.link;
        }
      }
      forall l | l in listings && l.price.Some?
        ensures l.link in Links(Stored(rows, listings))
      {
        if l != last {
          assert l in init by {
            var k :| 0 <= k < |listings| && listings[k] == l;
            assert k < |init|;
            assert init[k] == l;
          }
        }
      }
    }
  }

  // ===== Classify: map the i-th classifier answer to the i-th unprocessed row =====

  /** A row of the classify loop ends with a `TypeError` when its answer is missing or not a string. */
  datatype ClassifyOutcome = Completed | Crashed(index: nat)

  function Descriptions(ads: seq<UnprocessedAd>): (r: seq<string>)
    ensures |r| == |ads|
  {
    if ads == [] then [] else Descriptions(ads[..|ads| - 1]) + [ads[|ads| - 1].description]
  }

  /** The links of the unprocessed entries, in order. */
  function AdLinks(ads: seq<UnprocessedAd>): seq<string> {
    if ads == [] then [] else AdLinks(ads[..|ads| - 1]) + [ads[|ads| - 1].link]
  }

  /** How many rows the loop handles, from row `i` on, before the first unusable answer. */
  function UsableFrom(ads: seq<UnprocessedAd>, results: seq<Item>, i: nat): (n: nat)
    requires i <= |ads|
    ensures i <= n <= |ads|
    ensures n > i ==> n <= |results|
    ensures forall k | i <= k < n :: k < |results| && results[k].Str?
    ensures n < |ads| ==> n >= |results| || results[n].NonStr?
    decreases |ads| - i
  {
    if i == |ads| || i >= |results| || results[i].NonStr? then i else UsableFrom(ads, results, i + 1)
  }

  /**
    The number of rows the classify loop handles: every row before it has a
    string answer, and the row at it (if any) has none.
  */
  function HandledCount(ads: seq<UnprocessedAd>, results: seq<Item>): (n: nat)
    ensures n <= |ads| && n <= |results|
    ensures forall k | 0 <= k < n :: results[k].Str?
    ensures n < |ads| ==> n >= |results| || results[n].NonStr?
  {
    UsableFrom(ads, results, 0)
  }

  /**
    The brand the classify loop derives from answer `k`. A missing or non-string
    answer is read as no interpretation, which gives the sentinel; the loop as
    written never gets that far, because it stops at such an answer.
  */
  function AnswerBrand(results: seq<Item>, k: nat): (b: string)
    ensures b != ""
    ensures !IsSpace(b[0]) && !IsSpace(b[|b| - 1])
  {
    if k < |results| && results[k].Str? then ClassifiedBrand(results[k].text) else Sentinel
  }

  /** The rows after `set_brand` of the i-th row with the brand of the i-th answer, for each i in order. */
  function ApplyBrands(rows: seq<Ad>, ads: seq<UnprocessedAd>, results: seq<Item>): seq<Ad>
  {
    if ads == [] then rows
    else
      var n := |ads| - 1;
      WithBrand(ApplyBrands(rows, ads[..n], results), ads[n].link, AnswerBrand(results, n))
  }

  /** The classify loop of the main block, given the classifier's answers. */
  method ClassifyRows(table: AdTable, ads: seq<UnprocessedAd>, results: seq<Item>) returns (outcome: ClassifyOutcome)
    requires table.Valid()
    modifies table
    ensures table.Valid()
    ensures var n := HandledCount(ads, results);
      && table.rows == ApplyBrands(old(table.rows), ads[..n], results)
      && outcome == (if n == |ads| then Completed else Crashed(n))
  {
    for i := 0 to |ads|
      invariant table.Valid()
      invariant i <= HandledCount(ads, results)
      invariant HandledCount(ads, results) == UsableFrom(ads, results, i)
      invariant table.rows == ApplyBrands(old(table.rows), ads[..i], results)
    {
      if i >= |results| || results[i].NonStr? {
        return Crashed(i);
      }
      assert ads[..i + 1][..i] == ads[..i];
      var answer := results[i].text;
      var interpreted := match MerkSearch(answer, 0)
        case None => Sentinel
        case Some(p) => Strip(GroupAt(answer, p));
      if interpreted != "" && interpreted != Sentinel {
        table.UpdateBrand(ads[i].link, interpreted);
      } else {
        table.UpdateBrand(ads[i].link, Sentinel);
      }
    }
    assert ads[..|ads|] == ads;
    outcome := Completed;
  }

  /** The classify step: query, one batched classifier call if there is anything to classify, then the loop. */
  method ClassifyPhase(table: AdTable, apiKey: Option<string>, attempt: nat -> Response)
    returns (outcome: ClassifyOutcome, requests: nat, sleeps: seq<nat>)
    requires table.Valid()
    modifies table
    ensures table.Valid()
    ensures var ads := UnprocessedAds(old(table.rows));
      var call := Interpret(Descriptions(ads), apiKey, attempt);
      var n := HandledCount(ads, call.items);
      && requests == call.requests && sleeps == call.sleeps
      && table.rows == ApplyBrands(old(table.rows), ads[..n], call.items)
      && outcome == (if n == |ads| then Completed else Crashed(n))
  {
    var ads := table.GetUnprocessedAds();
    if ads == [] {
      return Completed, 0, [];
    }
    var descriptions := Descriptions(ads);
    var results;
    results, requests, sleeps := GetBrandInterpretation(descriptions, apiKey, attempt);
    outcome := ClassifyRows(table, ads, results);
  }

  /** Applying the brands keeps the number of rows and every row's link. */
  lemma {:induction false} ApplyBrandsKeepsLinks(rows: seq<Ad>, ads: seq<UnprocessedAd>, results: seq<Item>)
    ensures |ApplyBrands(rows, ads, results)| == |rows|
    ensures forall j | 0 <= j < |rows| :: ApplyBrands(rows, ads, results)[j].link == rows[j].link
  {
    if ads != [] {
      var n := |ads| - 1;
      ApplyBrandsKeepsLinks(rows, ads[..n], results);
      WithBrandAt(ApplyBrands(rows, ads[..n], results), ads[n].link, AnswerBrand(results, n));
    }
  }

  /** Applying the brands changes only the brand of the handled rows, and always to a non-empty brand. */
  lemma {:induction false} ApplyBrandsAt(rows: seq<Ad>, ads: seq<UnprocessedAd>, results: seq<Item>)
    ensures |ApplyBrands(rows, ads, results)| == |rows|
    ensures forall j | 0 <= j < |rows| :: ApplyBrands(rows, ads, results)[j].link == rows[j].link
    ensures forall j | 0 <= j < |rows| && rows[j].link !in AdLinks(ads) :: ApplyBrands(rows, ads, results)[j] == rows[j]
    ensures forall j | 0 <= j < |rows| && rows[j].link in AdLinks(ads) ::
      var a := ApplyBrands(rows, ads, results)[j];
      a == rows[j].(brand := a.brand) && a.brand.Some? && a.brand.value != ""
  {
    if ads != [] {
      var n := |ads| - 1;
      ApplyBrandsAt(rows, ads[..n], results);
      var before := ApplyBrands(rows, ads[..n], results);
      WithBrandAt(before, ads[n].link, AnswerBrand(results, n));
    }
  }

  /**
    After the classify loop, every handled row has left the unprocessed query and
    no other row has joined it.
  */
  lemma ClassifiedRowsLeaveQueue(rows: seq<Ad>, ads: seq<UnprocessedAd>, results: seq<Item>)
    ensures forall u | u in UnprocessedAds(ApplyBrands(rows, ads, results)) ::
      u in UnprocessedAds(rows) && u.link !in AdLinks(ads)
  {
    var after := ApplyBrands(rows, ads, results);
    ApplyBrandsAt(rows, ads, results);
    forall u | u in UnprocessedAds(after)
      ensures u in UnprocessedAds(rows) && u.link !in AdLinks(ads)
    {
      var a :| a in after && IsUnprocessed(a) && u == AsUnprocessed(a);
      var j :| 0 <= j < |after| && after[j] == a;
      assert a == rows[j];
      UnprocessedAdsComplete(rows, j);
    }
  }

  /** The brand the last entry with `link` gives, if any entry has it. */
  function LastBrandFor(ads: seq<UnprocessedAd>, results: seq<Item>, link: string): Option<string>
  {
    if ads == [] then None
    else if ads[|ads| - 1].link == link then Some(AnswerBrand(results, |ads| - 1))
    else LastBrandFor(ads[..|ads| - 1], results, link)
  }

  /** Each row ends with the brand of the last entry that carries its link. */
  lemma {:induction false} ApplyBrandsLastWins(rows: seq<Ad>, ads: seq<UnprocessedAd>, results: seq<Item>, j: nat)
    requires j < |rows|
    ensures |ApplyBrands(rows, ads, results)| == |rows|
    ensures ApplyBrands(rows, ads, results)[j] ==
      match LastBrandFor(ads, results, rows[j].link)
      case None => rows[j]
      case Some(b) => rows[j].(brand := Some(b))
  {
    if ads != [] {
      var n := |ads| - 1;
      ApplyBrandsLastWins(rows, ads[..n], results, j);
      ApplyBrandsKeepsLinks(rows, ads[..n], results);
      WithBrandAt(ApplyBrands(rows, ads[..n], results), ads[n].link, AnswerBrand(results, n));
    }
  }

  /** With distinct links, the last entry carrying `ads[i].link` is entry `i` itself. */
  lemma {:induction false} LastBrandForDistinct(ads: seq<UnprocessedAd>, results: seq<Item>, i: nat)
    requires forall k, m | 0 <= k < m < |ads| :: ads[k].link != ads[m].link
    requires i < |ads|
    ensures LastBrandFor(ads, results, ads[i].link) == Some(AnswerBrand(results, i))
  {
    var n := |ads| - 1;
    if i < n {
      var prefix := ads[..n];
      assert prefix[i] == ads[i];
      LastBrandForDistinct(prefix, results, i);
    }
  }

  /** The i-th answer gives the brand of the row whose link the i-th unprocessed entry carries. */
  lemma AnswersMapPositionally(rows: seq<Ad>, ads: seq<UnprocessedAd>, results: seq<Item>, i: nat, j: nat)
    requires forall k, m | 0 <= k < m < |ads| :: ads[k].link != ads[m].link
    requires i < |ads| && j < |rows| && rows[j].link == ads[i].link
    ensures |ApplyBrands(rows, ads, results)| == |rows|
    ensures ApplyBrands(rows, ads, results)[j] == rows[j].(brand := Some(AnswerBrand(results, i)))
  {
    ApplyBrandsLastWins(rows, ads, results, j);
    LastBrandForDistinct(ads, results, i);
  }

  // ===== The classify loop against missing answers

  /**
    With the API key unset the classifier gives no answers at all, so the loop
    as written stops at its first row with a `TypeError`: nothing is classified,
    and the table the next start of the program opens is unchanged.
  */
  lemma MissingKeyStopsClassifying(rows: seq<Ad>, attempt: nat -> Response)
    requires UnprocessedAds(rows) != []
    ensures var ads := UnprocessedAds(rows);
      var call := Interpret(Descriptions(ads), None, attempt);
      && call.items == []
      && HandledCount(ads, call.items) == 0 < |ads|
      && ApplyBrands(rows, ads[..0], call.items) == rows
  {
    var ads := UnprocessedAds(rows);
    assert ads[..0] == [];
  }

  /** Every entry's link is among the links of the entries. */
  lemma {:induction false} EntryLinks(ads: seq<UnprocessedAd>)
    ensures forall u | u in ads :: u.link in AdLinks(ads)
  {
    if ads != [] {
      var n := |ads| - 1;
      EntryLinks(ads[..n]);
      assert forall u | u in ads :: u in ads[..n] || u == ads[n];
    }
  }

  /**
    The classify loop as intended: a missing or non-string answer is read as no
    interpretation, so the row gets the sentinel and the loop goes on.
  */
  method ClassifyRowsIntended(table: AdTable, ads: seq<UnprocessedAd>, results: seq<Item>)
    requires table.Valid()
    modifies table
    ensures table.Valid()
    ensures table.rows == ApplyBrands(old(table.rows), ads, results)
  {
    for i := 0 to |ads|
      invariant table.Valid()
      invariant table.rows == ApplyBrands(old(table.rows), ads[..i], results)
    {
      assert ads[..i + 1][..i] == ads[..i];
      var interpreted := Sentinel;
      if i < |results| && results[i].Str? {
        var answer := results[i].text;
        interpreted := match MerkSearch(answer, 0)
          case None => Sentinel
          case Some(p) => Strip(GroupAt(answer, p));
      }
      if interpreted != "" && interpreted != Sentinel {
        table.UpdateBrand(ads[i].link, interpreted);
      } else {
        table.UpdateBrand(ads[i].link, Sentinel);
      }
    }
    assert ads[..|ads|] == ads;
  }

  /** The intended loop over the whole unprocessed query leaves that query empty, whatever the answers. */
  lemma IntendedClassifyEmptiesQueue(rows: seq<Ad>, results: seq<Item>)
    ensures UnprocessedAds(ApplyBrands(rows, UnprocessedAds(rows), results)) == []
  {
    var ads := UnprocessedAds(rows);
    var q := UnprocessedAds(ApplyBrands(rows, ads, results));
    if q != [] {
      var u := q[0];
      assert u in q;
      ClassifiedRowsLeaveQueue(rows, ads, results);
      assert u in ads && u.link !in AdLinks(ads);
      EntryLinks(ads);
      assert false;
    }
  }

  // ===== Notify: first matching watch term, one send, mark only on success =====

  /** Pending row `p` at position `i` gets `brand_notified = 1`: a term matches and the send succeeds. */
  predicate NotifiedRow(p: PendingAd, watch: seq<string>, cfg: TelegramConfig, delivered: bool) {
    FirstMatch(watch, p.brand).Some? && CanSend(cfg) && delivered
  }

  /** The links the notify loop marks, in order; `deliver(i)` is the outcome of the send for row `i`. */
  function NotifiedLinks(pending: seq<PendingAd>, watch: seq<string>, cfg: TelegramConfig, deliver: nat -> bool): seq<string> {
    if pending == [] then []
    else
      var n := |pending| - 1;
      NotifiedLinks(pending[..n], watch, cfg, deliver)
      + (if NotifiedRow(pending[n], watch, cfg, deliver(n)) then [pending[n].link] else [])
  }

  /** The messages the notify loop posts, in order: one per row with a matching term. */
  function PostedMessages(pending: seq<PendingAd>, watch: seq<string>, cfg: TelegramConfig, formatPrice: real -> string): seq<string> {
    if pending == [] then []
    else
      var n := |pending| - 1;
      var p := pending[n];
      PostedMessages(pending[..n], watch, cfg, formatPrice)
      + match FirstMatch(watch, p.brand)
        case Some(k) =>
          if CanSend(cfg) then [BrandMatchMessage(p.title, p.brand, watch[k], formatPrice(p.price), p.link)] else []
        case None => []
  }

  /** The rows after `set_notified(link, 1)` for each link in order. */
  function MarkNotified(rows: seq<Ad>, links: seq<string>): seq<Ad> {
    if links == [] then rows else WithNotified(MarkNotified(rows, links[..|links| - 1]), links[|links| - 1], 1)
  }

  /** One step of the notify loop: how row `i` extends the marked links and the posted messages. */
  lemma NotifyStep(pending: seq<PendingAd>, watch: seq<string>, cfg: TelegramConfig, formatPrice: real -> string,
                   deliver: nat -> bool, i: nat)
    requires i < |pending|
    ensures var p := pending[i];
      NotifiedLinks(pending[..i + 1], watch, cfg, deliver) == NotifiedLinks(pending[..i], watch, cfg, deliver)
        + (if NotifiedRow(p, watch, cfg, deliver(i)) then [p.link] else [])
    ensures var p := pending[i];
      PostedMessages(pending[..i + 1], watch, cfg, formatPrice) == PostedMessages(pending[..i], watch, cfg, formatPrice)
        + match FirstMatch(watch, p.brand)
          case Some(k) =>
            if CanSend(cfg) then [BrandMatchMessage(p.title, p.brand, watch[k], formatPrice(p.price), p.link)] else []
          case None => []
  {
    assert pending[..i + 1][..i] == pending[..i];
    assert pending[..i + 1][i] == pending[i];
  }

  /** Marking one more link is one more status update. */
  lemma MarkNotifiedSnoc(rows: seq<Ad>, links: seq<string>, link: string)
    ensures MarkNotified(rows, links + [link]) == WithNotified(MarkNotified(rows, links), link, 1)
  {
    assert (links + [link])[..|links|] == links;
  }

  /** The compare-and-notify loop of the main block. */
  method NotifyPhase(table: AdTable, watch: seq<string>, cfg: TelegramConfig, formatPrice: real -> string, deliver: nat -> bool)
    returns (posted: seq<string>)
    requires table.Valid()
    modifies table
    ensures table.Valid()
    ensures var pending := PendingAds(old(table.rows));
      && table.rows == MarkNotified(old(table.rows), NotifiedLinks(pending, watch, cfg, deliver))
      && posted == PostedMessages(pending, watch, cfg, formatPrice)
  {
    var pending := table.GetAdsForComparison();
    ghost var rows0 := table.rows;
    ghost var marked: seq<string> := [];
    posted := [];
    for i := 0 to |pending|
      invariant table.Valid()
      invariant marked == NotifiedLinks(pending[..i], watch, cfg, deliver)
      invariant table.rows == MarkNotified(rows0, marked)
      invariant posted == PostedMessages(pending[..i], watch, cfg, formatPrice)
    {
      var p := pending[i];
      NotifyStep(pending, watch, cfg, formatPrice, deliver, i);
      var found := ScanWatchList(watch, p.brand);
      if found.Some? {
        var message := ComposeMessage(p.title, p.brand, watch[found.value], formatPrice(p.price), p.link);
        var ok, sent := SendTelegramMessage(message, cfg, deliver(i));
        if sent {
          posted := posted + [message];
        }
        if ok {
          MarkNotifiedSnoc(rows0, marked, p.link);
          table.UpdateNotifiedStatus(p.link, 1);
          marked := marked + [p.link];
        }
      }
    }
    assert pending[..|pending|] == pending;
  }

  lemma {:induction false} MarkNotifiedAt(rows: seq<Ad>, links: seq<string>)
    ensures |MarkNotified(rows, links)| == |rows|
    ensures forall j | 0 <= j < |rows| ::
      MarkNotified(rows, links)[j] == if rows[j].link in links then rows[j].(brandNotified := 1) else rows[j]
  {
    if links != [] {
      var init := links[..|links| - 1];
      MarkNotifiedAt(rows, init);
      WithNotifiedAt(MarkNotified(rows, init), links[|links| - 1], 1);
      assert links == init + [links[|links| - 1]];
    }
  }

  /** A link is marked exactly when some pending row with that link had a match and a successful send. */
  lemma {:induction false} NotifiedLinksExactly(pending: seq<PendingAd>, watch: seq<string>, cfg: TelegramConfig, deliver: nat -> bool, link: string)
    ensures link in NotifiedLinks(pending, watch, cfg, deliver) <==>
      exists i | 0 <= i < |pending| :: pending[i].link == link && NotifiedRow(pending[i], watch, cfg, deliver(i))
  {
    if pending != [] {
      var n := |pending| - 1;
      NotifiedLinksExactly(pending[..n], watch, cfg, deliver, link);
      if i :| 0 <= i < n && pending[..n][i].link == link && NotifiedRow(pending[..n][i], watch, cfg, deliver(i)) {
        assert pending[i] == pending[..n][i];
      }
      if i :| 0 <= i < |pending| && pending[i].link == link && NotifiedRow(pending[i], watch, cfg, deliver(i)) {
        if i < n {
          assert pending[..n][i] == pending[i];
        }
      }
    }
  }

  /**
    After the notify loop, a pending row has left the comparison query exactly
    when a watch term matched its brand and the send succeeded; a row with no
    match or a failed send is unchanged, so it is offered again the next time
    the program runs a round on the same database.
  */
  lemma NotifiedOnlyOnSuccess(rows: seq<Ad>, watch: seq<string>, cfg: TelegramConfig, deliver: nat -> bool)
    requires UniqueLinks(rows)
    ensures var pending := PendingAds(rows);
      var after := MarkNotified(rows, NotifiedLinks(pending, watch, cfg, deliver));
      forall i | 0 <= i < |pending| ::
        pending[i] in PendingAds(after) <==> !NotifiedRow(pending[i], watch, cfg, deliver(i))
  {
    var pending := PendingAds(rows);
    forall i | 0 <= i < |pending|
      ensures pending[i] in PendingAds(MarkNotified(rows, NotifiedLinks(pending, watch, cfg, deliver)))
        <==> !NotifiedRow(pending[i], watch, cfg, deliver(i))
    {
      PendingRowAfterNotify(rows, watch, cfg, deliver, i);
    }
  }

  lemma PendingRowAfterNotify(rows: seq<Ad>, watch: seq<string>, cfg: TelegramConfig, deliver: nat -> bool, i: nat)
    requires UniqueLinks(rows)
    requires i < |PendingAds(rows)|
    ensures var pending := PendingAds(rows);
      var after := MarkNotified(rows, NotifiedLinks(pending, watch, cfg, deliver));
      pending[i] in PendingAds(after) <==> !NotifiedRow(pending[i], watch, cfg, deliver(i))
  {
    var pending := PendingAds(rows);
    var links := NotifiedLinks(pending, watch, cfg, deliver);
    var p := pending[i];
    NotifiedLinksExactly(pending, watch, cfg, deliver, p.link);
    if NotifiedRow(p, watch, cfg, deliver(i)) {
      assert p.link in links;
      MarkedRowsLeavePending(rows, links, p.link);
    } else {
      QueryLinksDistinct(rows);
      assert p.link !in links;
      assert p in pending;
      var a :| a in rows && IsPending(a) && p == AsPending(a);
      var j :| 0 <= j < |rows| && rows[j] == a;
      UnmarkedRowsStayPending(rows, links, j);
    }
  }

  /** A row whose link was marked is no longer pending. */
  lemma MarkedRowsLeavePending(rows: seq<Ad>, links: seq<string>, link: string)
    requires link in links
    ensures forall p | p in PendingAds(MarkNotified(rows, links)) :: p.link != link
  {
    var after := MarkNotified(rows, links);
    MarkNotifiedAt(rows, links);
    forall p | p in PendingAds(after)
      ensures p.link != link
    {
      var b :| b in after && IsPending(b) && p == AsPending(b);
      var m :| 0 <= m < |after| && after[m] == b;
    }
  }

  /** A pending row whose link was not marked is still pending, unchanged. */
  lemma UnmarkedRowsStayPending(rows: seq<Ad>, links: seq<string>, j: nat)
    requires j < |rows| && IsPending(rows[j]) && rows[j].link !in links
    ensures AsPending(rows[j]) in PendingAds(MarkNotified(rows, links))
  {
    MarkNotifiedAt(rows, links);
    PendingAdsComplete(MarkNotified(rows, links), j);
  }

  /** At most one message per pending row, and none without credentials. */
  lemma {:induction false} PostedMessagesBound(pending: seq<PendingAd>, watch: seq<string>, cfg: TelegramConfig, formatPrice: real -> string)
    ensures |PostedMessages(pending, watch, cfg, formatPrice)| <= |pending|
    ensures !CanSend(cfg) ==> PostedMessages(pending, watch, cfg, formatPrice) == []
  {
    if pending != [] {
      PostedMessagesBound(pending[..|pending| - 1], watch, cfg, formatPrice);
    }
  }

  // ===== One round of the main loop

  /**
   * Fetch, classify, then compare and notify. A crash in the classify loop
   * propagates out of the main loop, so nothing is compared or sent in that round.
   */
  method ScraperRound(table: AdTable, listings: seq<Listing>, apiKey: Option<string>, attempt: nat -> Response,
                      watch: seq<string>, cfg: TelegramConfig, formatPrice: real -> string, deliver: nat -> bool)
    returns (outcome: ClassifyOutcome, posted: seq<string>)
    requires table.Valid()
    modifies table
    ensures table.Valid()
    ensures var fetched := Stored(old(table.rows), listings);
      var ads := UnprocessedAds(fetched);
      var call := Interpret(Descriptions(ads), apiKey, attempt);
      var n := HandledCount(ads, call.items);
      var classified := ApplyBrands(fetched, ads[..n], call.items);
      && outcome == (if n == |ads| then Completed else Crashed(n))
      && (outcome.Crashed? ==> table.rows == classified && posted == [])
      && (outcome.Completed? ==>
            var pending := PendingAds(classified);
            && table.rows == MarkNotified(classified, NotifiedLinks(pending, watch, cfg, deliver))
            && posted == PostedMessages(pending, watch, cfg, formatPrice))
  {
    FetchPhase(table, listings);
    var requests, sleeps;
    outcome, requests, sleeps := ClassifyPhase(table, apiKey, attempt);
    if outcome.Crashed? {
      return outcome, [];
    }
    posted := NotifyPhase(table, watch, cfg, formatPrice, deliver);
  }
}
