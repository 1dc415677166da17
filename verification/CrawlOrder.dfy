/** The order of the crawl's queue: page by page as the pages were popped, and link by link as each page lists them. */
module CrawlOrder {
  import opened Crawler
  import opened CrawlRuns

  predicate FirstAt(links: seq<Url>, i: nat, link: Url) {
    i < |links| && links[i] == link && forall j :: 0 <= j < i ==> links[j] != link
  }

  /** The page lists a before b. */
  ghost predicate ListedBefore(links: seq<Url>, a: Url, b: Url) {
    exists i: nat, j: nat :: FirstAt(links, i, a) && FirstAt(links, j, b) && i < j
  }

  lemma FirstListed(links: seq<Url>, link: Url) returns (i: nat)
    requires link in links
    ensures FirstAt(links, i, link)
  {
    i := 0;
    while links[i] != link
      invariant i < |links| && forall j :: 0 <= j < i ==> links[j] != link
      invariant exists j :: i <= j < |links| && links[j] == link
      decreases |links| - i
    {
      i := i + 1;
    }
  }

  lemma ListedBeforeMore(links: seq<Url>, last: Url, a: Url, b: Url)
    requires ListedBefore(links, a, b)
    ensures ListedBefore(links + [last], a, b)
  {
    var i: nat, j: nat :| FirstAt(links, i, a) && FirstAt(links, j, b) && i < j;
    assert FirstAt(links + [last], i, a) && FirstAt(links + [last], j, b);
  }

  lemma ListedBeforeLast(links: seq<Url>, last: Url, a: Url)
    requires a in links && last !in links
    ensures ListedBefore(links + [last], a, last)
  {
    var i := FirstListed(links, a);
    assert FirstAt(links + [last], i, a) && FirstAt(links + [last], |links|, last);
  }

  lemma {:induction false} NewLinksInOrder(web: Web, links: seq<Url>, visited: set<Url>, a: nat, b: nat)
    requires a < b < |NewLinks(web, links, visited)|
    ensures ListedBefore(links, NewLinks(web, links, visited)[a], NewLinks(web, links, visited)[b])
  {
    var before, last := links[..|links| - 1], links[|links| - 1];
    var found := NewLinks(web, before, visited);
    assert links == before + [last];
    if b < |found| {
      NewLinksInOrder(web, before, visited, a, b);
      ListedBeforeMore(before, last, found[a], found[b]);
    } else {
      NewLinksMeaning(web, before, visited);
      assert found[a] in found;
      ListedBeforeLast(before, last, found[a]);
    }
  }

  // ---- The queue ---------------------------------------------------------------------------

  /** Entry i was crawled above the depth limit and its page holds this admitted link. */
  predicate Offered(web: Web, limits: Limits, log: Log, i: nat, link: Url) {
    Crawled(web, log, i) && Follows(web, limits, log.entries[i], link)
  }

  predicate FirstOffer(web: Web, limits: Limits, log: Log, i: nat, link: Url) {
    Offered(web, limits, log, i, link) && forall j: nat :: j < i ==> !Offered(web, limits, log, j, link)
  }

  /** a was offered by an earlier page than b, or before b on the same page. */
  ghost predicate OfferedBefore(web: Web, limits: Limits, log: Log, a: Url, b: Url) {
    exists i: nat, j: nat :: FirstOffer(web, limits, log, i, a) && FirstOffer(web, limits, log, j, b)
      && (i < j || (i == j && ListedBefore(web.links(log.entries[i].url), a, b)))
  }

  ghost predicate HasOffer(web: Web, limits: Limits, log: Log, link: Url) {
    exists i: nat :: FirstOffer(web, limits, log, i, link)
  }

  ghost predicate OfferedAt(web: Web, limits: Limits, log: Log, k: nat)
    requires k < |log.entries|
  {
    HasOffer(web, limits, log, log.entries[k].url)
  }

  ghost predicate PairAt(web: Web, limits: Limits, log: Log, j: nat, k: nat)
    requires j < |log.entries| && k < |log.entries|
  {
    OfferedBefore(web, limits, log, log.entries[j].url, log.entries[k].url)
  }

  ghost predicate Ordered(web: Web, limits: Limits, log: Log) {
    && (forall k: nat :: 0 < k < |log.entries| ==> OfferedAt(web, limits, log, k))
    && (forall j: nat, k: nat :: 0 < j < k < |log.entries| ==> PairAt(web, limits, log, j, k))
  }

  /** What was offered before a turn stays as it was; only the popped entry can offer more. */
  lemma OffersStay(web: Web, limits: Limits, log: Log, after: Log, found: seq<Url>, i: nat, link: Url)
    requires Popped(web, limits, log, after, found) && i != log.next
    ensures Offered(web, limits, after, i, link) <==> Offered(web, limits, log, i, link)
  {
    StaysCrawled(web, limits, log, after, found, i);
  }

  lemma FirstOfferStays(web: Web, limits: Limits, log: Log, after: Log, found: seq<Url>, i: nat, link: Url)
    requires Popped(web, limits, log, after, found) && FirstOffer(web, limits, log, i, link)
    ensures FirstOffer(web, limits, after, i, link) && i < log.next && after.entries[i] == log.entries[i]
  {
    forall j: nat | j <= i ensures Offered(web, limits, after, j, link) <==> Offered(web, limits, log, j, link) {
      OffersStay(web, limits, log, after, found, j, link);
    }
  }

  lemma OfferedIsQueued(web: Web, limits: Limits, log: Log, i: nat, link: Url)
    requires Closed(web, limits, log) && Offered(web, limits, log, i, link)
    ensures link in Urls(log.entries)
  {
    assert Reached(log.entries, link, log.entries[i].depth + 1);
    var k :| 0 <= k < |log.entries| && log.entries[k].url == link;
    assert log.entries[k] in log.entries;
  }

  /** A link that is queued by a turn was offered by no page before. */
  lemma NewIsFirstOffer(web: Web, limits: Limits, log: Log, after: Log, found: seq<Url>, link: Url)
    requires Popped(web, limits, log, after, found) && Closed(web, limits, log) && link in found
    ensures FirstOffer(web, limits, after, log.next, link)
  {
    var e := log.entries[log.next];
    FoundMeaning(web, limits, e, Urls(log.entries));
    assert after.entries[log.next] == e;
    forall j: nat | j < log.next ensures !Offered(web, limits, after, j, link) {
      OffersStay(web, limits, log, after, found, j, link);
      if Offered(web, limits, log, j, link) { OfferedIsQueued(web, limits, log, j, link); }
    }
  }

  /** The URL of an entry behind a turn: an old one, or one of those found. */
  lemma EntryOf(web: Web, limits: Limits, log: Log, after: Log, found: seq<Url>, k: nat)
    requires Popped(web, limits, log, after, found) && k < |after.entries|
    ensures after.entries[k].url == if k < |log.entries| then log.entries[k].url else found[k - |log.entries|]
    ensures k >= |log.entries| ==> after.entries[k].url in found
  {
  }

  lemma OldPairInOrder(web: Web, limits: Limits, log: Log, after: Log, found: seq<Url>, a: Url, b: Url)
    requires Popped(web, limits, log, after, found) && OfferedBefore(web, limits, log, a, b)
    ensures OfferedBefore(web, limits, after, a, b)
  {
    var i: nat, m: nat :| FirstOffer(web, limits, log, i, a) && FirstOffer(web, limits, log, m, b)
      && (i < m || (i == m && ListedBefore(web.links(log.entries[i].url), a, b)));
    FirstOfferStays(web, limits, log, after, found, i, a);
    FirstOfferStays(web, limits, log, after, found, m, b);
  }

  lemma MixedPairInOrder(web: Web, limits: Limits, log: Log, after: Log, found: seq<Url>, a: Url, b: Url)
    requires Popped(web, limits, log, after, found) && Closed(web, limits, log)
    requires HasOffer(web, limits, log, a) && b in found
    ensures OfferedBefore(web, limits, after, a, b)
  {
    var i: nat :| FirstOffer(web, limits, log, i, a);
    FirstOfferStays(web, limits, log, after, found, i, a);
    NewIsFirstOffer(web, limits, log, after, found, b);
  }

  lemma NewPairInOrder(web: Web, limits: Limits, log: Log, after: Log, found: seq<Url>, j: nat, k: nat)
    requires Popped(web, limits, log, after, found) && Closed(web, limits, log) && j < k < |found|
    ensures OfferedBefore(web, limits, after, found[j], found[k])
  {
    var e := log.entries[log.next];
    NewIsFirstOffer(web, limits, log, after, found, found[j]);
    NewIsFirstOffer(web, limits, log, after, found, found[k]);
    NewLinksInOrder(web, web.links(e.url), Urls(log.entries), j, k);
    assert after.entries[log.next] == e;
  }

  lemma PairInOrder(web: Web, limits: Limits, log: Log, after: Log, found: seq<Url>, j: nat, k: nat)
    requires Popped(web, limits, log, after, found) && Closed(web, limits, log) && Ordered(web, limits, log)
    requires 0 < j < k < |after.entries|
    ensures PairAt(web, limits, after, j, k)
  {
    var n := |log.entries|;
    EntryOf(web, limits, log, after, found, j);
    EntryOf(web, limits, log, after, found, k);
    if k < n {
      assert PairAt(web, limits, log, j, k);
      OldPairInOrder(web, limits, log, after, found, log.entries[j].url, log.entries[k].url);
    } else if j < n {
      assert OfferedAt(web, limits, log, j);
      MixedPairInOrder(web, limits, log, after, found, log.entries[j].url, found[k - n]);
    } else {
      NewPairInOrder(web, limits, log, after, found, j - n, k - n);
    }
  }

  lemma TurnKeepsOrder(web: Web, limits: Limits, log: Log)
    requires !Done(limits, log) && Closed(web, limits, log) && Ordered(web, limits, log)
    ensures Ordered(web, limits, Turn(web, limits, log))
  {
    var after := Turn(web, limits, log);
    var found := TurnPops(web, limits, log);
    forall k: nat | 0 < k < |after.entries| ensures OfferedAt(web, limits, after, k) {
      EntryOf(web, limits, log, after, found, k);
      if k < |log.entries| {
        assert OfferedAt(web, limits, log, k);
        var i: nat :| FirstOffer(web, limits, log, i, log.entries[k].url);
        FirstOfferStays(web, limits, log, after, found, i, log.entries[k].url);
      } else {
        NewIsFirstOffer(web, limits, log, after, found, after.entries[k].url);
      }
    }
    forall j: nat, k: nat | 0 < j < k < |after.entries| ensures PairAt(web, limits, after, j, k) {
      PairInOrder(web, limits, log, after, found, j, k);
    }
  }

  /** In every run the queue is ordered by the page that first offered each link, and within a page as it lists them. */
  lemma {:induction false} RunKeepsOrder(web: Web, limits: Limits, start: Url, log: Log)
    requires Inv(web, limits, start, log) && Ordered(web, limits, log)
    ensures Ordered(web, limits, Run(web, limits, log))
    decreases limits.maxPages - log.pages, |log.entries| - log.next
  {
    if Done(limits, log) {
    } else {
      TurnKeepsOrder(web, limits, log);
      TurnKeepsInv(web, limits, start, log);
      RunKeepsOrder(web, limits, start, Turn(web, limits, log));
    }
  }
}
