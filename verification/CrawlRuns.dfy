/** What every crawl run keeps: no URL twice, the page budget, breadth-first depths and least link distances. */
module CrawlRuns {
  import opened Basics
  import opened Crawler

  /** The run yields the items of the reference crawl. */
  lemma {:induction false} RunYieldsCrawl(web: Web, limits: Limits, log: Log)
    requires log.next <= |log.entries|
    ensures Run(web, limits, log).items ==
            log.items + CrawlOne(web, limits, log.entries[log.next..], Urls(log.entries), log.pages)
    decreases limits.maxPages - log.pages, |log.entries| - log.next
  {
    if !Done(limits, log) {
      TurnYieldsHead(web, limits, log);
      RunYieldsCrawl(web, limits, Turn(web, limits, log));
    }
  }

  lemma PageTurn(web: Web, limits: Limits, log: Log, e: Entry, found: seq<Url>)
    requires !Done(limits, log) && e == log.entries[log.next] && found == Found(web, limits, e, Urls(log.entries))
    requires !web.excluded(e.url) && web.process(e.url).Page?
    ensures var after := Turn(web, limits, log);
      && after.items == log.items + [web.process(e.url)] && after.pages == log.pages + 1
      && after.entries[after.next..] == log.entries[log.next + 1..] + Entries(found, e.depth + 1)
      && Urls(after.entries) == Urls(log.entries) + Elements(found)
  {
    UrlsOfMore(log.entries, found, e.depth + 1);
    PrefixKept(log.entries, Entries(found, e.depth + 1), log.next + 1);
  }

  lemma TurnYieldsHead(web: Web, limits: Limits, log: Log)
    requires !Done(limits, log)
    ensures var after := Turn(web, limits, log);
      log.items + CrawlOne(web, limits, log.entries[log.next..], Urls(log.entries), log.pages) ==
      after.items + CrawlOne(web, limits, after.entries[after.next..], Urls(after.entries), after.pages)
  {
    var e, rest, after := log.entries[log.next], log.entries[log.next + 1..], Turn(web, limits, log);
    assert log.entries[log.next..] == [e] + rest;
    CrawlHead(web, limits, e, rest, Urls(log.entries), log.pages);
    if !web.excluded(e.url) {
      if web.process(e.url).Page? { PageTurn(web, limits, log, e, Found(web, limits, e, Urls(log.entries))); }
      Associative(log.items, [web.process(e.url)],
                  CrawlOne(web, limits, after.entries[after.next..], Urls(after.entries), after.pages));
    }
  }

  lemma PrefixKept<T>(s: seq<T>, more: seq<T>, n: nat)
    requires n <= |s|
    ensures (s + more)[..n] == s[..n] && (s + more)[n..] == s[n..] + more
  {
  }

  lemma UrlsOfMore(entries: seq<Entry>, found: seq<Url>, depth: nat)
    ensures Urls(entries + Entries(found, depth)) == Urls(entries) + Elements(found)
  {
    var more := Entries(found, depth);
    forall u | u in Elements(found) ensures u in Urls(entries + more) {
      var i :| 0 <= i < |found| && found[i] == u;
      assert more[i] in entries + more;
    }
    forall u | u in Urls(entries) ensures u in Urls(entries + more) {
      var e :| e in entries && e.url == u;
      assert e in entries + more;
    }
  }

  /** The item of a URL names that URL. */
  ghost predicate Named(web: Web) { forall u :: web.process(u).url == u }

  // ---- The invariant ---------------------------------------------------------------------

  /** Entry i was popped, was not excluded, and gave a page. */
  predicate Crawled(web: Web, log: Log, i: nat) {
    i < log.next && i < |log.entries| && !web.excluded(log.entries[i].url) && web.process(log.entries[i].url).Page?
  }

  predicate Distinct(entries: seq<Entry>) {
    forall i, j :: 0 <= i < j < |entries| ==> entries[i].url != entries[j].url
  }

  /** Depths never decrease along the queue, and what waits spans at most two consecutive depths. */
  predicate BreadthFirst(log: Log) {
    && (forall i, j :: 0 <= i <= j < |log.entries| ==> log.entries[i].depth <= log.entries[j].depth)
    && (forall j :: log.next < |log.entries| && log.next <= j < |log.entries| ==>
        log.entries[j].depth <= log.entries[log.next].depth + 1)
  }

  /** Entry i queued entry j: it was crawled, links to it, and lies one level above. */
  predicate ParentOf(web: Web, log: Log, i: nat, j: nat) {
    && i < j < |log.entries| && Crawled(web, log, i)
    && log.entries[j].url in web.links(log.entries[i].url) && web.admits(log.entries[j].url)
    && log.entries[j].depth == log.entries[i].depth + 1
  }

  ghost predicate Rooted(web: Web, limits: Limits, log: Log, start: Url) {
    && |log.entries| > 0 && log.entries[0] == Entry(start, 0)
    && (forall j: nat :: 0 < j < |log.entries| ==> HasParent(web, limits, log, j))
  }

  ghost predicate HasParent(web: Web, limits: Limits, log: Log, j: nat)
    requires j < |log.entries|
  {
    log.entries[j].depth <= limits.maxDepth && exists i: nat :: ParentOf(web, log, i, j)
  }

  /** Some entry for this URL lies at this depth or above. */
  predicate Reached(entries: seq<Entry>, link: Url, depth: nat) {
    exists j :: 0 <= j < |entries| && entries[j].url == link && entries[j].depth <= depth
  }

  /** Every admitted link of a crawled page above the depth limit has been queued, at most one level below the page. */
  ghost predicate Closed(web: Web, limits: Limits, log: Log) {
    forall i: nat, link | Crawled(web, log, i) && Follows(web, limits, log.entries[i], link) ::
      Reached(log.entries, link, log.entries[i].depth + 1)
  }

  /** The page of e lies above the depth limit and holds this admitted link. */
  predicate Follows(web: Web, limits: Limits, e: Entry, link: Url) {
    e.depth < limits.maxDepth && link in web.links(e.url) && web.admits(link)
  }

  /** One item for each popped entry that is not excluded, in order. */
  function Yield(web: Web, entries: seq<Entry>): seq<Item> {
    if |entries| == 0 then []
    else Yield(web, entries[..|entries| - 1]) + YieldOf(web, entries[|entries| - 1])
  }

  function YieldOf(web: Web, e: Entry): seq<Item> {
    if web.excluded(e.url) then [] else [web.process(e.url)]
  }

  function CountPages(items: seq<Item>): nat {
    if |items| == 0 then 0 else CountPages(items[..|items| - 1]) + if items[|items| - 1].Page? then 1 else 0
  }

  ghost predicate Inv(web: Web, limits: Limits, start: Url, log: Log) {
    && log.next <= |log.entries|
    && Distinct(log.entries) && BreadthFirst(log) && Rooted(web, limits, log, start) && Closed(web, limits, log)
    && log.items == Yield(web, log.entries[..log.next])
    && log.pages == CountPages(log.items) && (log.pages == 0 || log.pages <= limits.maxPages)
  }

  // ---- The links a page queues ---------------------------------------------------------------

  lemma {:induction false} NewLinksMeaning(web: Web, links: seq<Url>, visited: set<Url>)
    ensures var found := NewLinks(web, links, visited);
      && (forall i, j :: 0 <= i < j < |found| ==> found[i] != found[j])
      && (forall u :: u in found ==> u !in visited && u in links && web.admits(u))
      && (forall u :: u in links && web.admits(u) ==> u in visited || u in found)
  {
    if |links| == 0 {
    } else {
      var before, last := links[..|links| - 1], links[|links| - 1];
      assert links == before + [last];
      NewLinksMeaning(web, before, visited);
    }
  }

  lemma FoundMeaning(web: Web, limits: Limits, e: Entry, visited: set<Url>)
    ensures var found := Found(web, limits, e, visited);
      && (forall i, j :: 0 <= i < j < |found| ==> found[i] != found[j])
      && (forall u :: u in found ==>
          u !in visited && u in web.links(e.url) && web.admits(u) && e.depth < limits.maxDepth)
      && (e.depth < limits.maxDepth ==> forall u :: u in web.links(e.url) && web.admits(u) ==>
          u in visited || u in found)
  {
    NewLinksMeaning(web, web.links(e.url), visited);
  }

  // ---- Every turn keeps it ---------------------------------------------------------------------

  /** The log after popping entry log.next and queueing `found` below it (nothing, unless that entry was crawled). */
  ghost predicate Popped(web: Web, limits: Limits, log: Log, after: Log, found: seq<Url>) {
    && log.next < |log.entries|
    && after.next == log.next + 1
    && after.entries == log.entries + Entries(found, log.entries[log.next].depth + 1)
    && found == (if Crawled(web, after, log.next)
                 then Found(web, limits, log.entries[log.next], Urls(log.entries))
                 else [])
  }

  lemma TurnPops(web: Web, limits: Limits, log: Log) returns (found: seq<Url>)
    requires !Done(limits, log)
    ensures Popped(web, limits, log, Turn(web, limits, log), found)
  {
    var e, after := log.entries[log.next], Turn(web, limits, log);
    assert after.entries[log.next] == e;
    if Crawled(web, after, log.next) {
      found := Found(web, limits, e, Urls(log.entries));
    } else {
      found := [];
      assert log.entries + Entries([], e.depth + 1) == log.entries;
    }
  }

  lemma KeepsDistinct(web: Web, limits: Limits, log: Log, after: Log, found: seq<Url>)
    requires Popped(web, limits, log, after, found) && Distinct(log.entries)
    ensures Distinct(after.entries)
  {
    FoundMeaning(web, limits, log.entries[log.next], Urls(log.entries));
    var n := |log.entries|;
    forall i, j | 0 <= i < j < |after.entries| ensures after.entries[i].url != after.entries[j].url {
      if j >= n {
        assert after.entries[j].url == found[j - n];
        assert found[j - n] in found;
        if i < n { assert log.entries[i] in log.entries; } else { assert after.entries[i].url == found[i - n]; }
      }
    }
  }

  lemma KeepsBreadthFirst(web: Web, limits: Limits, log: Log, after: Log, found: seq<Url>)
    requires Popped(web, limits, log, after, found) && BreadthFirst(log)
    ensures BreadthFirst(after)
  {
    var n, d := |log.entries|, log.entries[log.next].depth;
    assert forall j :: 0 <= j < |after.entries| ==>
      after.entries[j].depth == if j < n then log.entries[j].depth else d + 1;
  }

  lemma StaysCrawled(web: Web, limits: Limits, log: Log, after: Log, found: seq<Url>, i: nat)
    requires Popped(web, limits, log, after, found)
    ensures Crawled(web, after, i) <==> Crawled(web, log, i) || (i == log.next && Crawled(web, after, i))
    ensures i < |log.entries| ==> after.entries[i] == log.entries[i]
  {
  }

  lemma StaysParent(web: Web, limits: Limits, log: Log, after: Log, found: seq<Url>, i: nat, j: nat)
    requires Popped(web, limits, log, after, found) && ParentOf(web, log, i, j)
    ensures ParentOf(web, after, i, j) && after.entries[j] == log.entries[j]
  {
    assert after.entries[i] == log.entries[i] && after.entries[j] == log.entries[j];
  }

  lemma KeepsRooted(web: Web, limits: Limits, log: Log, after: Log, found: seq<Url>, start: Url)
    requires Popped(web, limits, log, after, found) && Rooted(web, limits, log, start)
    ensures Rooted(web, limits, after, start)
  {
    var n, e := |log.entries|, log.entries[log.next];
    FoundMeaning(web, limits, e, Urls(log.entries));
    forall j: nat | 0 < j < |after.entries| ensures HasParent(web, limits, after, j) {
      if j < n {
        assert HasParent(web, limits, log, j);
        var i: nat :| ParentOf(web, log, i, j);
        StaysParent(web, limits, log, after, found, i, j);
      } else {
        assert after.entries[j].url == found[j - n] && found[j - n] in found;
        StaysCrawled(web, limits, log, after, found, log.next);
        assert ParentOf(web, after, log.next, j);
      }
    }
  }

  lemma KeepsClosed(web: Web, limits: Limits, log: Log, after: Log, found: seq<Url>)
    requires Popped(web, limits, log, after, found) && Closed(web, limits, log) && BreadthFirst(log)
    ensures Closed(web, limits, after)
  {
    var n, e := |log.entries|, log.entries[log.next];
    FoundMeaning(web, limits, e, Urls(log.entries));
    forall i: nat, link | Crawled(web, after, i) && Follows(web, limits, after.entries[i], link)
      ensures Reached(after.entries, link, after.entries[i].depth + 1)
    {
      StaysCrawled(web, limits, log, after, found, i);
      var j: nat;
      if i < log.next {
        assert Crawled(web, log, i) && Follows(web, limits, log.entries[i], link);
        j :| j < n && log.entries[j].url == link && log.entries[j].depth <= log.entries[i].depth + 1;
      } else if link in found {
        var k :| 0 <= k < |found| && found[k] == link;
        j := n + k;
      } else {
        j := WaitingIsNear(log, link);
      }
      assert after.entries[j].url == link && after.entries[j].depth <= after.entries[i].depth + 1;
    }
  }

  /** Everything queued so far lies at most one level below the entry being popped. */
  lemma WaitingIsNear(log: Log, link: Url) returns (j: nat)
    requires log.next < |log.entries| && BreadthFirst(log) && link in Urls(log.entries)
    ensures j < |log.entries| && log.entries[j].url == link && log.entries[j].depth <= log.entries[log.next].depth + 1
  {
    var e :| e in log.entries && e.url == link;
    j :| 0 <= j < |log.entries| && log.entries[j] == e;
  }

  /** One more entry yields its item, or nothing if it is excluded. */
  lemma YieldNext(web: Web, entries: seq<Entry>, n: nat)
    requires n < |entries|
    ensures var e, items := entries[n], Yield(web, entries[..n]);
            Yield(web, entries[..n + 1]) == if web.excluded(e.url) then items else items + [web.process(e.url)]
  {
    var e, items := entries[n], Yield(web, entries[..n]);
    assert entries[..n + 1][..n] == entries[..n];
    assert items + [] == items;
  }

  lemma PagesNext(items: seq<Item>, item: Item)
    ensures CountPages(items + [item]) == CountPages(items) + if item.Page? then 1 else 0
  {
    assert (items + [item])[..|items|] == items;
  }

  /** A turn pops one entry, queues some, and yields the entry's item unless it is excluded. */
  ghost predicate Stepped(web: Web, log: Log, after: Log, more: seq<Entry>) {
    && log.next < |log.entries| && after.next == log.next + 1 && after.entries == log.entries + more
    && var e := log.entries[log.next];
       if web.excluded(e.url) then after.items == log.items && after.pages == log.pages
       else after.items == log.items + [web.process(e.url)]
            && after.pages == log.pages + if web.process(e.url).Page? then 1 else 0
  }

  lemma TurnSteps(web: Web, limits: Limits, log: Log) returns (more: seq<Entry>)
    requires !Done(limits, log)
    ensures Stepped(web, log, Turn(web, limits, log), more)
  {
    var e := log.entries[log.next];
    more := [];
    if !web.excluded(e.url) && web.process(e.url).Page? {
      more := Entries(Found(web, limits, e, Urls(log.entries)), e.depth + 1);
    } else {
      assert log.entries + more == log.entries;
    }
  }

  lemma KeepsYield(web: Web, log: Log, after: Log, more: seq<Entry>)
    requires Stepped(web, log, after, more) && log.items == Yield(web, log.entries[..log.next])
    requires log.pages == CountPages(log.items)
    ensures after.items == Yield(web, after.entries[..after.next]) && after.pages == CountPages(after.items)
  {
    var e := log.entries[log.next];
    YieldNext(web, log.entries, log.next);
    PrefixKept(log.entries, more, log.next + 1);
    if !web.excluded(e.url) { PagesNext(log.items, web.process(e.url)); }
  }

  lemma TurnKeepsInv(web: Web, limits: Limits, start: Url, log: Log)
    requires !Done(limits, log) && Inv(web, limits, start, log)
    ensures Inv(web, limits, start, Turn(web, limits, log))
  {
    var after := Turn(web, limits, log);
    var found := TurnPops(web, limits, log);
    KeepsDistinct(web, limits, log, after, found);
    KeepsBreadthFirst(web, limits, log, after, found);
    KeepsRooted(web, limits, log, after, found, start);
    KeepsClosed(web, limits, log, after, found);
    var more := TurnSteps(web, limits, log);
    KeepsYield(web, log, after, more);
  }

  lemma {:induction false} RunKeepsInv(web: Web, limits: Limits, start: Url, log: Log)
    requires Inv(web, limits, start, log)
    ensures Inv(web, limits, start, Run(web, limits, log))
    decreases limits.maxPages - log.pages, |log.entries| - log.next
  {
    if !Done(limits, log) {
      TurnKeepsInv(web, limits, start, log);
      RunKeepsInv(web, limits, start, Turn(web, limits, log));
    }
  }

  // ---- What it means ---------------------------------------------------------------------------

  /** A chain of links from the root, each from a crawled page and each admitted. */
  ghost predicate Route(web: Web, log: Log, start: Url, route: seq<Url>) {
    |route| > 0 && route[0] == start && forall k: nat :: k + 1 < |route| ==> LinkAt(web, log, route, k)
  }

  ghost predicate LinkAt(web: Web, log: Log, route: seq<Url>, k: nat)
    requires k + 1 < |route|
  {
    && (exists i: nat :: CrawledUrl(web, log, i, route[k]))
    && route[k + 1] in web.links(route[k]) && web.admits(route[k + 1])
  }

  predicate CrawledUrl(web: Web, log: Log, i: nat, url: Url) { Crawled(web, log, i) && log.entries[i].url == url }

  lemma SameEntry(log: Log, i: nat, j: nat)
    requires Distinct(log.entries) && i < |log.entries| && j < |log.entries| && log.entries[i].url == log.entries[j].url
    ensures i == j
  {
  }

  lemma {:induction false} NoShorterRoute(web: Web, limits: Limits, start: Url, log: Log, route: seq<Url>, j: nat)
    requires Distinct(log.entries) && Closed(web, limits, log)
    requires Rooted(web, limits, log, start) && Route(web, log, start, route)
    requires j < |log.entries| && log.entries[j].url == route[|route| - 1]
    ensures log.entries[j].depth <= |route| - 1
    decreases |route|
  {
    var n := |route| - 1;
    if j > 0 { assert HasParent(web, limits, log, j); }
    if n == 0 {
      SameEntry(log, 0, j);
    } else if n <= limits.maxDepth {
      var front := route[..n];
      assert LinkAt(web, log, route, n - 1);
      var i: nat :| CrawledUrl(web, log, i, route[n - 1]);
      RouteFront(web, log, start, route, n);
      NoShorterRoute(web, limits, start, log, front, i);
      NextIsNear(web, limits, log, i, route[n], j);
    }
  }

  lemma RouteFront(web: Web, log: Log, start: Url, route: seq<Url>, n: nat)
    requires Route(web, log, start, route) && 0 < n <= |route|
    ensures Route(web, log, start, route[..n])
  {
    forall k: nat | k + 1 < n ensures LinkAt(web, log, route[..n], k) { assert LinkAt(web, log, route, k); }
  }

  /** A link of a crawled page above the depth limit lies at most one level below it. */
  lemma NextIsNear(web: Web, limits: Limits, log: Log, i: nat, link: Url, j: nat)
    requires Distinct(log.entries) && Closed(web, limits, log)
    requires Crawled(web, log, i) && Follows(web, limits, log.entries[i], link)
    requires j < |log.entries| && log.entries[j].url == link
    ensures log.entries[j].depth <= log.entries[i].depth + 1
  {
    assert Reached(log.entries, link, log.entries[i].depth + 1);
    var k :| 0 <= k < |log.entries| && log.entries[k].url == link && log.entries[k].depth <= log.entries[i].depth + 1;
    SameEntry(log, k, j);
  }

  lemma RouteSnoc(web: Web, log: Log, start: Url, front: seq<Url>, i: nat, url: Url)
    requires Route(web, log, start, front) && CrawledUrl(web, log, i, front[|front| - 1])
    requires url in web.links(log.entries[i].url) && web.admits(url)
    ensures Route(web, log, start, front + [url])
  {
    var route := front + [url];
    forall k: nat | k + 1 < |route| ensures LinkAt(web, log, route, k) {
      if k + 1 < |front| { assert LinkAt(web, log, front, k); }
    }
  }

  lemma {:induction false} RouteExists(web: Web, limits: Limits, start: Url, log: Log, j: nat) returns (route: seq<Url>)
    requires Rooted(web, limits, log, start) && j < |log.entries|
    ensures Route(web, log, start, route) && route[|route| - 1] == log.entries[j].url
    ensures |route| - 1 == log.entries[j].depth
    decreases j
  {
    if j == 0 {
      route := [start];
    } else {
      assert HasParent(web, limits, log, j);
      var i: nat :| ParentOf(web, log, i, j);
      var front := RouteExists(web, limits, start, log, i);
      RouteSnoc(web, log, start, front, i, log.entries[j].url);
      route := front + [log.entries[j].url];
    }
  }

  lemma {:induction false} YieldUrls(web: Web, entries: seq<Entry>)
    requires Named(web) && Distinct(entries)
    ensures forall a, b :: 0 <= a < b < |Yield(web, entries)| ==>
      Yield(web, entries)[a].url != Yield(web, entries)[b].url
    ensures forall item :: item in Yield(web, entries) ==> item.url in Urls(entries)
  {
    if |entries| == 0 {
    } else {
      var front, e := entries[..|entries| - 1], entries[|entries| - 1];
      YieldUrls(web, front);
      assert e in entries && e.url !in Urls(front);
      assert forall x :: x in front ==> x in entries;
      assert Urls(front) <= Urls(entries);
    }
  }

  /** The route leads to the URL of entry j. */
  ghost predicate RouteTo(web: Web, log: Log, start: Url, j: nat, route: seq<Url>)
    requires j < |log.entries|
  {
    Route(web, log, start, route) && route[|route| - 1] == log.entries[j].url
  }

  /** The depth of entry j is the length of some route to its URL, and no route to it is shorter. */
  ghost predicate LeastDistance(web: Web, log: Log, start: Url, j: nat)
    requires j < |log.entries|
  {
    && (exists route :: RouteTo(web, log, start, j, route) && |route| - 1 == log.entries[j].depth)
    && (forall route :: RouteTo(web, log, start, j, route) ==> log.entries[j].depth <= |route| - 1)
  }

  /** No URL is fetched twice, the page budget holds, and depths are breadth-first and least link distances. */
  ghost predicate GoodCrawl(web: Web, limits: Limits, start: Url, log: Log) {
    && (forall a, b :: 0 <= a < b < |log.items| ==> log.items[a].url != log.items[b].url)
    && (CountPages(log.items) == 0 || CountPages(log.items) <= limits.maxPages)
    && BreadthFirst(log)
    && (forall j :: 0 < j < |log.entries| ==> log.entries[j].depth <= limits.maxDepth)
    && (forall j: nat :: j < |log.entries| ==> LeastDistance(web, log, start, j))
  }

  lemma InvIsGood(web: Web, limits: Limits, start: Url, log: Log)
    requires Named(web) && Inv(web, limits, start, log)
    ensures GoodCrawl(web, limits, start, log)
  {
    forall i, j | 0 <= i < j < log.next ensures log.entries[..log.next][i].url != log.entries[..log.next][j].url {}
    forall j: nat | 0 < j < |log.entries| ensures log.entries[j].depth <= limits.maxDepth {
      assert HasParent(web, limits, log, j);
    }
    YieldUrls(web, log.entries[..log.next]);
    forall j: nat | j < |log.entries| ensures LeastDistance(web, log, start, j) {
      var shortest := RouteExists(web, limits, start, log, j);
      assert RouteTo(web, log, start, j, shortest);
      forall route | RouteTo(web, log, start, j, route)
        ensures log.entries[j].depth <= |route| - 1
      {
        NoShorterRoute(web, limits, start, log, route, j);
      }
    }
  }

  lemma StartIsInv(web: Web, limits: Limits, start: Url)
    ensures Inv(web, limits, start, Start(start)) && Urls(Start(start).entries) == {start}
  {
    assert Start(start).entries[..0] == [];
  }

  /**
   * Every crawl yields the items of a run in which no URL is fetched twice, at most max_pages pages come out, depths
   * are breadth-first and within max_depth, and every queued URL carries the least link distance from the root through
   * crawled pages.
   */
  lemma EveryCrawl(site: Site, limits: Limits, start: Url)
    ensures var log := Run(WebOf(site), limits, Start(start));
      && log.items == CrawlOne(WebOf(site), limits, [Entry(start, 0)], {start}, 0)
      && GoodCrawl(WebOf(site), limits, start, log)
  {
    var web, init := WebOf(site), Start(start);
    StartIsInv(web, limits, start);
    assert init.entries[0..] == init.entries;
    RunYieldsCrawl(web, limits, init);
    RunKeepsInv(web, limits, start, init);
    forall u ensures web.process(u).url == u { assert web.process(u) == ProcessUrl(site, u); }
    InvIsGood(web, limits, start, Run(web, limits, init));
  }
}
