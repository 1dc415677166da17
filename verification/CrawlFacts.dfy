/** What a crawl queues and what it yields, told by the site itself. */
module CrawlFacts {
  import opened Crawler
  import opened CrawlRuns
  import opened CrawlOrder

  /** The part stands somewhere in s. */
  ghost predicate HasPart(s: string, part: string) { exists before, behind :: s == before + part + behind }

  lemma ContainsMeaning(s: string, part: string)
    ensures Contains(s, part) <==> HasPart(s, part)
  {
    if Contains(s, part) {
      var i :| 0 <= i <= |s| && OccursAt(s, part, i);
      assert s == s[..i] + part + s[i + |part|..];
    }
    if HasPart(s, part) {
      var before, behind :| s == before + part + behind;
      assert OccursAt(s, part, |before|);
    }
  }

  /** Within Wikipedia only articles are crawled, and only articles are crawled without validation. */
  predicate Permitted(site: Site, link: Url) {
    (site.wikiDomain(link) ==> site.wikiArticle(link)) && (site.valid(link) || site.wikiArticle(link))
  }

  lemma AdmitsMeaning(site: Site, link: Url)
    ensures WebOf(site).admits(link) <==> Permitted(site, link)
  {
    assert WebOf(site).admits(link) == AdmitsLink(site, link);
  }

  /** A response of at most 10 MB, of an HTML type, with at least 50 characters of text. */
  ghost predicate IsPage(fetched: Fetched) {
    fetched.Response? && fetched.bytes <= 10485760 && HasPart(fetched.contentType, "html") && |fetched.text| >= 50
  }

  /** The item tells what became of the URL, and for a skipped one the first reason that applies. */
  ghost predicate Tells(site: Site, url: Url, item: Item) {
    && item.url == url
    && match site.fetch(url)
       case Error(message) => item == Failed(url, message)
       case Response(bytes, contentType, text, links) =>
         && (IsPage(site.fetch(url)) ==> item == Page(url, text))
         && (bytes > 10485760 ==> item == Skipped(url, Oversized))
         && (bytes <= 10485760 && !HasPart(contentType, "html") ==> item == Skipped(url, NotHtml))
         && (bytes <= 10485760 && HasPart(contentType, "html") && |text| < 50 ==>
             item == Skipped(url, if |links| > 0 then Thin else EmptyRender))
  }

  lemma ItemTells(site: Site, url: Url)
    ensures Tells(site, url, WebOf(site).process(url))
    ensures WebOf(site).process(url).Page? <==> IsPage(site.fetch(url))
  {
    assert WebOf(site).process(url) == ProcessUrl(site, url);
    if site.fetch(url).Response? { ContainsMeaning(site.fetch(url).contentType, "html"); }
  }

  // ---- What is queued --------------------------------------------------------------------

  /** Entry i was popped, is not excluded, and gave a page. */
  ghost predicate GavePage(site: Site, log: Log, i: nat) {
    i < log.next && i < |log.entries| && !site.excluded(log.entries[i].url) && IsPage(site.fetch(log.entries[i].url))
  }

  /** Entry j is a permitted link of the page of entry i, one level below it and within the limit. */
  ghost predicate LinkedFrom(site: Site, limits: Limits, log: Log, i: nat, j: nat) {
    && i < j < |log.entries| && GavePage(site, log, i)
    && log.entries[j].url in site.fetch(log.entries[i].url).links && Permitted(site, log.entries[j].url)
    && log.entries[j].depth == log.entries[i].depth + 1 <= limits.maxDepth
  }

  ghost predicate HasSource(site: Site, limits: Limits, log: Log, j: nat) {
    exists i: nat :: LinkedFrom(site, limits, log, i, j)
  }

  /** The page of entry i lies above the depth limit and holds this permitted link. */
  ghost predicate Offers(site: Site, limits: Limits, log: Log, i: nat, link: Url) {
    && GavePage(site, log, i) && log.entries[i].depth < limits.maxDepth
    && link in site.fetch(log.entries[i].url).links && Permitted(site, link)
  }

  /** The start was queued first, everything else as a permitted link of a page, and no such link was left out. */
  ghost predicate QueuesLinks(site: Site, limits: Limits, start: Url, log: Log) {
    && |log.entries| > 0 && log.entries[0] == Entry(start, 0)
    && (forall j: nat :: 0 < j < |log.entries| ==> HasSource(site, limits, log, j))
    && (forall i: nat, link :: Offers(site, limits, log, i, link) ==> link in Urls(log.entries))
  }

  /** Entry i is the first one whose page offers this link. */
  ghost predicate OffersFirst(site: Site, limits: Limits, log: Log, i: nat, link: Url) {
    Offers(site, limits, log, i, link) && forall j: nat :: j < i ==> !Offers(site, limits, log, j, link)
  }

  /** a is first offered by an earlier page than b, or by the same page, which lists it before b. */
  ghost predicate QueuedBefore(site: Site, limits: Limits, log: Log, a: Url, b: Url) {
    exists i: nat, j: nat :: OffersFirst(site, limits, log, i, a) && OffersFirst(site, limits, log, j, b)
      && (i < j || (i == j && ListedBefore(site.fetch(log.entries[i].url).links, a, b)))
  }

  /** Links are queued page by page in the order of the pages, and for one page in the order of its links. */
  ghost predicate QueuesInOrder(site: Site, limits: Limits, log: Log) {
    forall j: nat, k: nat :: 0 < j < k < |log.entries| ==>
      QueuedBefore(site, limits, log, log.entries[j].url, log.entries[k].url)
  }

  lemma OffersMeaning(site: Site, limits: Limits, log: Log, i: nat, link: Url)
    ensures Offers(site, limits, log, i, link) <==> Offered(WebOf(site), limits, log, i, link)
  {
    CrawledMeaning(site, log, i);
    AdmitsMeaning(site, link);
    if GavePage(site, log, i) { LinksMeaning(site, log.entries[i].url); }
  }

  lemma FirstOfferMeaning(site: Site, limits: Limits, log: Log, i: nat, link: Url)
    requires FirstOffer(WebOf(site), limits, log, i, link)
    ensures OffersFirst(site, limits, log, i, link)
    ensures WebOf(site).links(log.entries[i].url) == site.fetch(log.entries[i].url).links
  {
    forall j: nat ensures Offers(site, limits, log, j, link) <==> Offered(WebOf(site), limits, log, j, link) {
      OffersMeaning(site, limits, log, j, link);
    }
    LinksMeaning(site, log.entries[i].url);
  }

  lemma OrderedMeaning(site: Site, limits: Limits, log: Log)
    requires Ordered(WebOf(site), limits, log)
    ensures QueuesInOrder(site, limits, log)
  {
    forall j: nat, k: nat | 0 < j < k < |log.entries|
      ensures QueuedBefore(site, limits, log, log.entries[j].url, log.entries[k].url)
    {
      var web, a, b := WebOf(site), log.entries[j].url, log.entries[k].url;
      assert PairAt(web, limits, log, j, k);
      var i: nat, m: nat :| FirstOffer(web, limits, log, i, a) && FirstOffer(web, limits, log, m, b)
        && (i < m || (i == m && ListedBefore(web.links(log.entries[i].url), a, b)));
      FirstOfferMeaning(site, limits, log, i, a);
      FirstOfferMeaning(site, limits, log, m, b);
    }
  }

  lemma CrawledMeaning(site: Site, log: Log, i: nat)
    ensures Crawled(WebOf(site), log, i) <==> GavePage(site, log, i)
  {
    if i < |log.entries| { ItemTells(site, log.entries[i].url); }
  }

  lemma LinksMeaning(site: Site, url: Url)
    requires IsPage(site.fetch(url))
    ensures WebOf(site).links(url) == site.fetch(url).links
  {
    assert WebOf(site).links(url) == PageLinks(site, url);
  }

  lemma ParentLinks(site: Site, limits: Limits, log: Log, i: nat, j: nat)
    requires ParentOf(WebOf(site), log, i, j) && log.entries[j].depth <= limits.maxDepth
    ensures LinkedFrom(site, limits, log, i, j)
  {
    CrawledMeaning(site, log, i);
    LinksMeaning(site, log.entries[i].url);
    AdmitsMeaning(site, log.entries[j].url);
  }

  lemma LinkIsQueued(site: Site, limits: Limits, log: Log, i: nat, link: Url)
    requires Closed(WebOf(site), limits, log)
    requires Offers(site, limits, log, i, link)
    ensures link in Urls(log.entries)
  {
    var e := log.entries[i];
    CrawledMeaning(site, log, i);
    LinksMeaning(site, e.url);
    AdmitsMeaning(site, link);
    assert Follows(WebOf(site), limits, e, link);
    assert Reached(log.entries, link, e.depth + 1);
    var j :| 0 <= j < |log.entries| && log.entries[j].url == link;
    assert log.entries[j] in log.entries;
  }

  lemma InvQueuesLinks(site: Site, limits: Limits, start: Url, log: Log)
    requires Inv(WebOf(site), limits, start, log)
    ensures QueuesLinks(site, limits, start, log)
  {
    forall j: nat | 0 < j < |log.entries| ensures HasSource(site, limits, log, j) {
      assert HasParent(WebOf(site), limits, log, j);
      var i: nat :| ParentOf(WebOf(site), log, i, j);
      ParentLinks(site, limits, log, i, j);
    }
    forall i: nat, link | Offers(site, limits, log, i, link) ensures link in Urls(log.entries) {
      LinkIsQueued(site, limits, log, i, link);
    }
  }

  // ---- What is yielded ----------------------------------------------------------------------

  /** How many of these entries are not excluded. */
  function Fetches(site: Site, entries: seq<Entry>): nat {
    if |entries| == 0 then 0
    else Fetches(site, entries[..|entries| - 1]) + if site.excluded(entries[|entries| - 1].url) then 0 else 1
  }

  /** The item behind those of the first i entries tells what became of entry i. */
  ghost predicate ToldAt(site: Site, entries: seq<Entry>, items: seq<Item>, i: nat)
    requires i < |entries|
  {
    var at := Fetches(site, entries[..i]);
    at < |items| && Tells(site, entries[i].url, items[at])
  }

  /** One item for each entry that is not excluded, in order. */
  ghost predicate YieldsItems(site: Site, entries: seq<Entry>, items: seq<Item>) {
    && |items| == Fetches(site, entries)
    && forall i: nat :: i < |entries| && !site.excluded(entries[i].url) ==> ToldAt(site, entries, items, i)
  }

  lemma TellsNext(site: Site, entries: seq<Entry>, items: seq<Item>, e: Entry)
    requires YieldsItems(site, entries, items)
    ensures YieldsItems(site, entries + [e], items + YieldOf(WebOf(site), e))
  {
    var web, all, told := WebOf(site), entries + [e], items + YieldOf(WebOf(site), e);
    assert all[..|entries|] == entries;
    ItemTells(site, e.url);
    forall i: nat | i < |all| && !site.excluded(all[i].url) ensures ToldAt(site, all, told, i) {
      if i < |entries| {
        assert ToldAt(site, entries, items, i) && all[..i] == entries[..i];
      } else {
        assert told[|items|] == web.process(e.url);
      }
    }
  }

  lemma {:induction false} YieldTells(site: Site, entries: seq<Entry>)
    ensures YieldsItems(site, entries, Yield(WebOf(site), entries))
  {
    if |entries| == 0 {
    } else {
      var front, last := entries[..|entries| - 1], entries[|entries| - 1];
      YieldTells(site, front);
      TellsNext(site, front, Yield(WebOf(site), front), last);
      assert entries == front + [last];
    }
  }

  /** The whole crawl, in terms of the site: what is queued, what is yielded, and when it stops. */
  ghost predicate CrawlsSite(site: Site, limits: Limits, start: Url, log: Log) {
    && QueuesLinks(site, limits, start, log) && QueuesInOrder(site, limits, log)
    && log.next <= |log.entries| && YieldsItems(site, log.entries[..log.next], log.items)
    && (CountPages(log.items) < limits.maxPages ==> log.next == |log.entries|)
  }

  lemma RunCrawlsSite(site: Site, limits: Limits, start: Url)
    ensures CrawlsSite(site, limits, start, Run(WebOf(site), limits, Start(start)))
  {
    var log := Run(WebOf(site), limits, Start(start));
    StartIsInv(WebOf(site), limits, start);
    RunKeepsInv(WebOf(site), limits, start, Start(start));
    InvQueuesLinks(site, limits, start, log);
    RunKeepsOrder(WebOf(site), limits, start, Start(start));
    OrderedMeaning(site, limits, log);
    YieldTells(site, log.entries[..log.next]);
  }
}
