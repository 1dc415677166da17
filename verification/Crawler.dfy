/**
 * The site crawl as it should be: a FIFO work list from which one URL at a time is popped, fetched and expanded.
 * Fetching, parsing and URL validation are functions of the URL.
 */
module Crawler {

  type Url(==, !new)

  /** What fetching and parsing a URL gives: an error, or a response with its size, type, readable text and links. */
  datatype Fetched = Error(message: string) | Response(bytes: nat, contentType: string, text: string, links: seq<Url>)

  datatype Reason = Oversized | NotHtml | EmptyRender | Thin

  datatype Item = Page(url: Url, text: string) | Failed(url: Url, error: string) | Skipped(url: Url, reason: Reason)

  datatype Site = Site(fetch: Url -> Fetched, excluded: Url -> bool, wikiDomain: Url -> bool, wikiArticle: Url -> bool,
                       valid: Url -> bool)

  datatype Limits = Limits(maxPages: int, maxDepth: int)

  /** A queued URL and its link depth. */
  datatype Entry = Entry(url: Url, depth: nat)

  const MAX_BYTES: nat := 10 * 1024 * 1024
  const MIN_TEXT: nat := 50

  predicate OccursAt(s: string, part: string, i: nat) { i + |part| <= |s| && s[i..i + |part|] == part }

  predicate Contains(s: string, part: string) { exists i :: 0 <= i <= |s| && OccursAt(s, part, i) }

  /** What one URL contributes to the crawl. */
  function ProcessUrl(site: Site, url: Url): Item {
    match site.fetch(url)
    case Error(message) => Failed(url, message)
    case Response(bytes, contentType, text, links) =>
      if bytes > MAX_BYTES then Skipped(url, Oversized)
      else if !Contains(contentType, "html") then Skipped(url, NotHtml)
      else if |text| < MIN_TEXT then Skipped(url, if links == [] then EmptyRender else Thin)
      else Page(url, text)
  }

  /** The links of a page that was crawled. */
  function PageLinks(site: Site, url: Url): seq<Url> {
    match site.fetch(url) case Error(_) => [] case Response(_, _, _, links) => links
  }

  /** Wikipedia articles, and validated URLs outside Wikipedia. */
  predicate AdmitsLink(site: Site, link: Url) {
    site.wikiArticle(link) || (!site.wikiDomain(link) && site.valid(link))
  }

  /** A site as the work list sees it. */
  datatype Web = Web(process: Url -> Item, links: Url -> seq<Url>, excluded: Url -> bool, admits: Url -> bool)

  function WebOf(site: Site): Web {
    Web(url => ProcessUrl(site, url), url => PageLinks(site, url), site.excluded, link => AdmitsLink(site, link))
  }

  /** The links that are queued, in order, when `visited` have been queued before. */
  function NewLinks(web: Web, links: seq<Url>, visited: set<Url>): seq<Url> {
    if |links| == 0 then [] else
      var before, last := NewLinks(web, links[..|links| - 1], visited), links[|links| - 1];
      if last !in visited && last !in before && web.admits(last) then before + [last] else before
  }

  /** The links queued by a page crawled at `depth`. */
  function Found(web: Web, limits: Limits, e: Entry, visited: set<Url>): seq<Url> {
    if e.depth < limits.maxDepth then NewLinks(web, web.links(e.url), visited) else []
  }

  function Entries(urls: seq<Url>, depth: nat): seq<Entry> {
    seq(|urls|, i requires 0 <= i < |urls| => Entry(urls[i], depth))
  }

  function Elements(urls: seq<Url>): set<Url> { set u | u in urls }

  // ---- The reference crawl: one URL at a time ---------------------------------------

  function CrawlOne(web: Web, limits: Limits, queue: seq<Entry>, visited: set<Url>, pages: nat): (items: seq<Item>)
    decreases limits.maxPages - pages, |queue|
  {
    if |queue| == 0 || pages >= limits.maxPages then []
    else if web.excluded(queue[0].url) then CrawlOne(web, limits, queue[1..], visited, pages)
    else
      var item := web.process(queue[0].url);
      if item.Page? then
        var found := Found(web, limits, queue[0], visited);
        [item] + CrawlOne(web, limits, queue[1..] + Entries(found, queue[0].depth + 1),
                          visited + Elements(found), pages + 1)
      else
        [item] + CrawlOne(web, limits, queue[1..], visited, pages)
  }

  lemma CrawlHead(web: Web, limits: Limits, e: Entry, rest: seq<Entry>, visited: set<Url>, pages: nat)
    requires pages < limits.maxPages
    ensures var item, found := web.process(e.url), Found(web, limits, e, visited);
            CrawlOne(web, limits, [e] + rest, visited, pages)
            == if web.excluded(e.url) then CrawlOne(web, limits, rest, visited, pages)
               else if item.Page? then
                 [item] + CrawlOne(web, limits, rest + Entries(found, e.depth + 1),
                                   visited + Elements(found), pages + 1)
               else [item] + CrawlOne(web, limits, rest, visited, pages)
  {
    assert ([e] + rest)[1..] == rest;
  }

  /** Removing an excluded URL from anywhere in the queue changes nothing. */
  lemma {:induction false} DropExcluded(web: Web, limits: Limits, a: seq<Entry>, x: Entry, b: seq<Entry>,
                                        visited: set<Url>, pages: nat)
    requires web.excluded(x.url)
    ensures CrawlOne(web, limits, a + [x] + b, visited, pages) == CrawlOne(web, limits, a + b, visited, pages)
    decreases limits.maxPages - pages, |a|, |b|
  {
    if pages < limits.maxPages {
      if a == [] {
        assert a + [x] + b == [x] + b && a + b == b;
        CrawlHead(web, limits, x, b, visited, pages);
      } else {
        var e, rest := a[0], a[1..];
        var found := Found(web, limits, e, visited);
        assert a == [e] + rest;
        AroundX(e, rest, x, b, Entries(found, e.depth + 1));
        CrawlHead(web, limits, e, rest + [x] + b, visited, pages);
        CrawlHead(web, limits, e, rest + b, visited, pages);
        if web.excluded(e.url) || !web.process(e.url).Page? {
          DropExcluded(web, limits, rest, x, b, visited, pages);
        } else {
          DropExcluded(web, limits, rest, x, b + Entries(found, e.depth + 1), visited + Elements(found), pages + 1);
        }
      }
    }
  }

  lemma AroundX<T>(e: T, rest: seq<T>, x: T, b: seq<T>, more: seq<T>)
    ensures [e] + rest + [x] + b == [e] + (rest + [x] + b) && [e] + rest + b == [e] + (rest + b)
    ensures rest + [x] + b + more == rest + [x] + (b + more) && rest + b + more == rest + (b + more)
  {
  }

  // ---- The reference crawl as a log ------------------------------------------------------

  /** A run so far: everything ever queued, how much of it has been popped, the pages produced and the items yielded. */
  datatype Log = Log(entries: seq<Entry>, next: nat, pages: nat, items: seq<Item>)

  function Urls(entries: seq<Entry>): set<Url> { set e | e in entries :: e.url }

  predicate Done(limits: Limits, log: Log) { log.next >= |log.entries| || log.pages >= limits.maxPages }

  /** One turn of the one-at-a-time crawl. */
  function Turn(web: Web, limits: Limits, log: Log): Log
    requires !Done(limits, log)
  {
    var e := log.entries[log.next];
    if web.excluded(e.url) then log.(next := log.next + 1)
    else
      var item := web.process(e.url);
      if item.Page? then
        Log(log.entries + Entries(Found(web, limits, e, Urls(log.entries)), e.depth + 1),
            log.next + 1, log.pages + 1, log.items + [item])
      else
        log.(next := log.next + 1, items := log.items + [item])
  }

  function Run(web: Web, limits: Limits, log: Log): (end: Log)
    ensures Done(limits, end)
    decreases limits.maxPages - log.pages, |log.entries| - log.next
  {
    if Done(limits, log) then log else Run(web, limits, Turn(web, limits, log))
  }

  function Start(start: Url): Log { Log([Entry(start, 0)], 0, 0, []) }
}
