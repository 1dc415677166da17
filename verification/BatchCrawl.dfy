/**
 * The site crawl as it runs: URLs are popped, fetched and handled in batches. Its queue, its visited set, its depths
 * and what it yields are those of the crawl that takes one URL at a time.
 */
module BatchCrawl {
  import opened Basics
  import opened Crawler
  import opened CrawlRuns
  import CrawlFacts

  const BATCH: nat := 5

  /** The entries that are not excluded. */
  function Kept(web: Web, entries: seq<Entry>): seq<Entry> {
    if |entries| == 0 then []
    else if web.excluded(entries[0].url) then Kept(web, entries[1..])
    else [entries[0]] + Kept(web, entries[1..])
  }

  lemma {:induction false} KeptConcat(web: Web, a: seq<Entry>, b: seq<Entry>)
    ensures Kept(web, a + b) == Kept(web, a) + Kept(web, b)
  {
    if a == [] {
      assert a + b == b;
    } else {
      assert (a + b)[1..] == a[1..] + b;
      KeptConcat(web, a[1..], b);
    }
  }

  // ---- The log behind the queue -----------------------------------------------------------

  /** What waits in the log. */
  function Waiting(log: Log): seq<Entry> { if log.next <= |log.entries| then log.entries[log.next..] else [] }

  /** The log after n turns, or where the run ends before that. */
  function Turns(web: Web, limits: Limits, log: Log, n: nat): Log {
    if n == 0 then log else
      var before := Turns(web, limits, log, n - 1);
      if Done(limits, before) then before else Turn(web, limits, before)
  }

  /** The log is a state of the run from `start`. */
  ghost predicate OnTheWay(web: Web, limits: Limits, start: Url, log: Log) {
    exists n: nat :: Turns(web, limits, Start(start), n) == log
  }

  lemma NextOnTheWay(web: Web, limits: Limits, start: Url, log: Log)
    requires OnTheWay(web, limits, start, log) && !Done(limits, log)
    ensures OnTheWay(web, limits, start, Turn(web, limits, log))
  {
    var n: nat :| Turns(web, limits, Start(start), n) == log;
    assert Turns(web, limits, Start(start), n + 1) == Turn(web, limits, log);
  }

  lemma {:induction false} TurnsKeepInv(web: Web, limits: Limits, start: Url, n: nat)
    ensures Inv(web, limits, start, Turns(web, limits, Start(start), n))
  {
    if n == 0 {
      StartIsInv(web, limits, start);
    } else {
      var before := Turns(web, limits, Start(start), n - 1);
      TurnsKeepInv(web, limits, start, n - 1);
      if !Done(limits, before) { TurnKeepsInv(web, limits, start, before); }
    }
  }

  lemma TurnKeepsRun(web: Web, limits: Limits, log: Log)
    requires !Done(limits, log)
    ensures Run(web, limits, Turn(web, limits, log)) == Run(web, limits, log)
  {
  }

  lemma {:induction false} TurnsKeepRun(web: Web, limits: Limits, log: Log, n: nat)
    ensures Run(web, limits, Turns(web, limits, log, n)) == Run(web, limits, log)
  {
    if n == 0 {
    } else {
      var before := Turns(web, limits, log, n - 1);
      TurnsKeepRun(web, limits, log, n - 1);
      if !Done(limits, before) { TurnKeepsRun(web, limits, before); }
    }
  }

  /** What waits in a state of the run has at most two depths, and if nothing waits it is the end of the run. */
  lemma OnTheWayMeaning(web: Web, limits: Limits, start: Url, log: Log)
    requires OnTheWay(web, limits, start, log)
    ensures log.next <= |log.entries| && BreadthFirst(log)
    ensures Done(limits, log) ==> log == Run(web, limits, Start(start))
  {
    var n: nat :| Turns(web, limits, Start(start), n) == log;
    TurnsKeepInv(web, limits, start, n);
    TurnsKeepRun(web, limits, Start(start), n);
  }

  /** The log is a state of the run, and the loop's visited set and page count are the log's. */
  ghost predicate Tracks(web: Web, limits: Limits, start: Url, log: Log, visited: set<Url>, pages: nat) {
    OnTheWay(web, limits, start, log) && Urls(log.entries) == visited && log.pages == pages
  }

  /** The last entry, if there is any, is excluded. */
  predicate EndsExcluded(web: Web, entries: seq<Entry>) {
    entries != [] && web.excluded(entries[|entries| - 1].url)
  }

  lemma WaitingNext(log: Log, e: Entry, rest: seq<Entry>)
    requires Waiting(log) == [e] + rest
    ensures log.next < |log.entries| && log.entries[log.next] == e && log.entries[log.next + 1..] == rest
  {
    assert Waiting(log)[0] == e && Waiting(log)[1..] == rest;
    assert log.entries[log.next..][1..] == log.entries[log.next + 1..];
  }

  /** Excluded entries in front are popped one by one and leave everything else as it is. */
  lemma {:induction false} SkipExcluded(web: Web, limits: Limits, start: Url, log: Log, visited: set<Url>, pages: nat,
                                        popped: seq<Entry>, rest: seq<Entry>)
    returns (after: Log, left: seq<Entry>)
    requires Tracks(web, limits, start, log, visited, pages) && Waiting(log) == popped + rest
    requires pages < limits.maxPages
    ensures Tracks(web, limits, start, after, visited, pages) && Waiting(after) == left + rest
    ensures after.items == log.items && Kept(web, left) == Kept(web, popped)
    ensures left != [] ==> !web.excluded(left[0].url)
    ensures EndsExcluded(web, left) ==> EndsExcluded(web, popped)
    decreases |popped|
  {
    after, left := log, popped;
    if popped != [] && web.excluded(popped[0].url) {
      assert popped + rest == [popped[0]] + (popped[1..] + rest);
      WaitingNext(log, popped[0], popped[1..] + rest);
      NextOnTheWay(web, limits, start, log);
      after, left := SkipExcluded(web, limits, start, Turn(web, limits, log), visited, pages, popped[1..], rest);
    }
  }

  lemma NoneKept(web: Web, entries: seq<Entry>)
    requires entries != [] && Kept(web, entries) == []
    ensures EndsExcluded(web, entries)
  {
    var front, last := entries[..|entries| - 1], entries[|entries| - 1];
    assert entries == front + [last];
    KeptConcat(web, front, [last]);
  }

  /** Once nothing that was popped is left to fetch, the log moves past all of it. */
  lemma SkipRest(web: Web, limits: Limits, start: Url, log: Log, visited: set<Url>, pages: nat, left: seq<Entry>,
                 rest: seq<Entry>)
    returns (after: Log)
    requires Tracks(web, limits, start, log, visited, pages) && Waiting(log) == left + rest
    requires Kept(web, left) == [] && (EndsExcluded(web, left) ==> pages < limits.maxPages)
    ensures Tracks(web, limits, start, after, visited, pages) && Waiting(after) == rest && after.items == log.items
  {
    if left == [] {
      after := log;
    } else {
      NoneKept(web, left);
      var none;
      after, none := SkipExcluded(web, limits, start, log, visited, pages, left, rest);
    }
  }

  // ---- What handling results makes of the loop's state ----------------------------------------

  /** What waits, what has ever been queued, and how many pages came out. */
  datatype Work = Work(queue: seq<Entry>, visited: set<Url>, pages: nat)

  /** A page counts, and its links are queued behind everything that waits already. */
  function HandleOne(web: Web, limits: Limits, e: Entry, w: Work): Work {
    if web.process(e.url).Page? then
      var found := Found(web, limits, e, w.visited);
      Work(w.queue + Entries(found, e.depth + 1), w.visited + Elements(found), w.pages + 1)
    else w
  }

  function HandleAll(web: Web, limits: Limits, batch: seq<Entry>, w: Work): Work {
    if |batch| == 0 then w else HandleAll(web, limits, batch[1..], HandleOne(web, limits, batch[0], w))
  }

  function ItemsOf(web: Web, batch: seq<Entry>): (items: seq<Item>)
    ensures |items| == |batch|
  {
    seq(|batch|, i requires 0 <= i < |batch| => web.process(batch[i].url))
  }

  lemma HandleCrawls(web: Web, limits: Limits, e: Entry, waiting: seq<Entry>, w: Work, rest: seq<Item>)
    requires !web.excluded(e.url) && w.pages < limits.maxPages
    requires var next := HandleOne(web, limits, e, w);
      CrawlOne(web, limits, waiting + next.queue, next.visited, next.pages) == rest
    ensures CrawlOne(web, limits, [e] + (waiting + w.queue), w.visited, w.pages) == [web.process(e.url)] + rest
  {
    CrawlHead(web, limits, e, waiting + w.queue, w.visited, w.pages);
    Associative(waiting, w.queue, Entries(Found(web, limits, e, w.visited), e.depth + 1));
  }

  lemma {:induction false} BatchPages(web: Web, limits: Limits, batch: seq<Entry>, w: Work)
    ensures var after := HandleAll(web, limits, batch, w);
      w.pages <= after.pages <= w.pages + |batch| && (after.pages == w.pages ==> after.queue == w.queue)
    decreases |batch|
  {
    if batch == [] {
    } else {
      BatchPages(web, limits, batch[1..], HandleOne(web, limits, batch[0], w));
    }
  }

  lemma FirstItem(web: Web, batch: seq<Entry>, end: seq<Item>)
    requires batch != []
    ensures ItemsOf(web, batch) + end == [web.process(batch[0].url)] + (ItemsOf(web, batch[1..]) + end)
  {
    assert ItemsOf(web, batch) == [web.process(batch[0].url)] + ItemsOf(web, batch[1..]);
    Associative([web.process(batch[0].url)], ItemsOf(web, batch[1..]), end);
  }

  predicate AllFetched(web: Web, batch: seq<Entry>) { forall i :: 0 <= i < |batch| ==> !web.excluded(batch[i].url) }

  /** Handling a batch in pop order is crawling its entries one at a time. */
  lemma {:induction false} BatchCrawls(web: Web, limits: Limits, batch: seq<Entry>, w: Work)
    requires AllFetched(web, batch) && w.pages + |batch| <= limits.maxPages
    ensures var after := HandleAll(web, limits, batch, w);
      CrawlOne(web, limits, batch + w.queue, w.visited, w.pages) ==
      ItemsOf(web, batch) + CrawlOne(web, limits, after.queue, after.visited, after.pages)
    decreases |batch|
  {
    if batch == [] {
      assert batch + w.queue == w.queue;
    } else {
      var e, waiting, after := batch[0], batch[1..], HandleAll(web, limits, batch, w);
      var next, end := HandleOne(web, limits, e, w), CrawlOne(web, limits, after.queue, after.visited, after.pages);
      BatchCrawls(web, limits, waiting, next);
      HandleCrawls(web, limits, e, waiting, w, ItemsOf(web, waiting) + end);
      FirstItem(web, batch, end);
      assert batch + w.queue == [e] + (waiting + w.queue);
    }
  }

  /** Both queue the same links behind what waits. */
  lemma TurnHandles(web: Web, limits: Limits, log: Log, e: Entry, w: Work) returns (more: seq<Entry>)
    requires !Done(limits, log) && log.entries[log.next] == e && !web.excluded(e.url)
    requires Urls(log.entries) == w.visited && log.pages == w.pages
    ensures var after, next := Turn(web, limits, log), HandleOne(web, limits, e, w);
      && next.queue == w.queue + more && Waiting(after) == log.entries[log.next + 1..] + more
      && Urls(after.entries) == next.visited && after.pages == next.pages
      && after.items == log.items + [web.process(e.url)]
  {
    more := [];
    if web.process(e.url).Page? {
      var found := Found(web, limits, e, w.visited);
      more := Entries(found, e.depth + 1);
      PageTurn(web, limits, log, e, found);
    } else {
      assert w.queue + more == w.queue && log.entries[log.next + 1..] + more == log.entries[log.next + 1..];
    }
  }

  /** Handling the first entry that waits is a turn of the run. */
  lemma HandledIsTurn(web: Web, limits: Limits, start: Url, log: Log, e: Entry, left: seq<Entry>, w: Work)
    returns (after: Log)
    requires Tracks(web, limits, start, log, w.visited, w.pages) && Waiting(log) == [e] + (left + w.queue)
    requires !web.excluded(e.url) && w.pages < limits.maxPages
    ensures var next := HandleOne(web, limits, e, w);
      Tracks(web, limits, start, after, next.visited, next.pages) && Waiting(after) == left + next.queue
    ensures after.items == log.items + [web.process(e.url)]
  {
    WaitingNext(log, e, left + w.queue);
    NextOnTheWay(web, limits, start, log);
    var more := TurnHandles(web, limits, log, e, w);
    after := Turn(web, limits, log);
    Associative(left, w.queue, more);
  }

  lemma KeptHead(web: Web, entries: seq<Entry>, e: Entry, more: seq<Entry>)
    requires Kept(web, entries) == [e] + more && (entries != [] ==> !web.excluded(entries[0].url))
    ensures entries == [e] + entries[1..] && Kept(web, entries[1..]) == more && !web.excluded(e.url)
  {
    assert Kept(web, entries) == [entries[0]] + Kept(web, entries[1..]);
    assert Kept(web, entries)[0] == e && Kept(web, entries)[1..] == Kept(web, entries[1..]) == more;
  }

  /** One handled entry moves the log past it, and past the excluded entries popped before it. */
  lemma LogFollows(web: Web, limits: Limits, start: Url, log: Log, popped: seq<Entry>, e: Entry, more: seq<Entry>,
                   w: Work)
    returns (after: Log, left: seq<Entry>)
    requires Tracks(web, limits, start, log, w.visited, w.pages) && Waiting(log) == popped + w.queue
    requires Kept(web, popped) == [e] + more && w.pages < limits.maxPages
    ensures var next := HandleOne(web, limits, e, w);
      Tracks(web, limits, start, after, next.visited, next.pages) && Waiting(after) == left + next.queue
    ensures after.items == log.items + [web.process(e.url)] && Kept(web, left) == more
    ensures EndsExcluded(web, left) ==> EndsExcluded(web, popped)
  {
    var skipped, first := SkipExcluded(web, limits, start, log, w.visited, w.pages, popped, w.queue);
    KeptHead(web, first, e, more);
    left := first[1..];
    assert first + w.queue == [e] + (left + w.queue);
    after := HandledIsTurn(web, limits, start, skipped, e, left, w);
  }

  /** Handling the batch that is kept of the popped entries moves the log past all of them. */
  lemma {:induction false} BatchFollows(web: Web, limits: Limits, start: Url, log: Log, popped: seq<Entry>,
                                        batch: seq<Entry>, w: Work)
    returns (after: Log)
    requires Tracks(web, limits, start, log, w.visited, w.pages) && Waiting(log) == popped + w.queue
    requires Kept(web, popped) == batch && w.pages + |batch| <= limits.maxPages
    requires EndsExcluded(web, popped) ==> w.pages + |batch| < limits.maxPages
    ensures var end := HandleAll(web, limits, batch, w);
      Tracks(web, limits, start, after, end.visited, end.pages) && Waiting(after) == end.queue
    ensures after.items == log.items + ItemsOf(web, batch)
    decreases |batch|
  {
    if batch == [] {
      after := SkipRest(web, limits, start, log, w.visited, w.pages, popped, w.queue);
    } else {
      var e, more := batch[0], batch[1..];
      assert batch == [e] + more;
      var next, left := LogFollows(web, limits, start, log, popped, e, more, w);
      after := BatchFollows(web, limits, start, next, left, more, HandleOne(web, limits, e, w));
      assert ItemsOf(web, batch) == [web.process(e.url)] + ItemsOf(web, more);
      Associative(log.items, [web.process(e.url)], ItemsOf(web, more));
    }
  }

  // ---- The loop and its steps --------------------------------------------------------------

  lemma PopNext(web: Web, popped: seq<Entry>, e: Entry, rest: seq<Entry>)
    requires rest != [] && e == rest[0]
    ensures popped + rest == (popped + [e]) + rest[1..]
    ensures Kept(web, popped + [e]) == Kept(web, popped) + if web.excluded(e.url) then [] else [e]
  {
    KeptConcat(web, popped, [e]);
    assert [e][1..] == [];
  }

  /** Popping changes nothing that is yielded, whether the entry joins the batch or is dropped. */
  lemma PopCrawls(web: Web, limits: Limits, batch: seq<Entry>, rest: seq<Entry>, visited: set<Url>, pages: nat)
    requires rest != []
    ensures var e := rest[0];
      CrawlOne(web, limits, batch + rest, visited, pages) ==
      CrawlOne(web, limits, (if web.excluded(e.url) then batch else batch + [e]) + rest[1..], visited, pages)
  {
    var e := rest[0];
    assert batch + rest == batch + [e] + rest[1..];
    if web.excluded(e.url) { DropExcluded(web, limits, batch, e, rest[1..], visited, pages); }
  }

  /** Pops up to a batch of URLs that are not excluded, never more than the page budget still allows. */
  method FillBatch(web: Web, limits: Limits, queue: seq<Entry>, ghost visited: set<Url>, pages: nat)
    returns (batch: seq<Entry>, rest: seq<Entry>, ghost popped: seq<Entry>)
    requires pages < limits.maxPages && queue != []
    ensures |batch| <= BATCH && pages + |batch| <= limits.maxPages
    ensures batch == [] ==> rest == []
    ensures |rest| < |queue|
    ensures AllFetched(web, batch)
    ensures queue == popped + rest && batch == Kept(web, popped)
    ensures EndsExcluded(web, popped) ==> pages + |batch| < limits.maxPages
    ensures CrawlOne(web, limits, queue, visited, pages) == CrawlOne(web, limits, batch + rest, visited, pages)
  {
    batch, rest, popped := [], queue, [];
    assert batch + rest == queue;
    while rest != [] && |batch| < BATCH && pages + |batch| < limits.maxPages
      invariant |batch| <= BATCH && pages + |batch| <= limits.maxPages
      invariant |rest| <= |queue| && (|rest| == |queue| ==> batch == [] && rest == queue)
      invariant AllFetched(web, batch)
      invariant queue == popped + rest && batch == Kept(web, popped)
      invariant EndsExcluded(web, popped) ==> pages + |batch| < limits.maxPages
      invariant CrawlOne(web, limits, queue, visited, pages) == CrawlOne(web, limits, batch + rest, visited, pages)
      decreases |rest|
    {
      var e := rest[0];
      PopNext(web, popped, e, rest);
      PopCrawls(web, limits, batch, rest, visited, pages);
      popped := popped + [e];
      if web.excluded(e.url) {
        rest := rest[1..];
      } else {
        batch, rest := batch + [e], rest[1..];
      }
    }
  }

  /** Queues the new links of a crawled page. */
  method Enqueue(web: Web, links: seq<Url>, depth: nat, queue: seq<Entry>, visited: set<Url>)
    returns (queue': seq<Entry>, visited': set<Url>)
    ensures var found := NewLinks(web, links, visited);
      queue' == queue + Entries(found, depth) && visited' == visited + Elements(found)
  {
    queue', visited' := queue, visited;
    ghost var found: seq<Url> := [];
    for i := 0 to |links|
      invariant found == NewLinks(web, links[..i], visited)
      invariant queue' == queue + Entries(found, depth) && visited' == visited + Elements(found)
    {
      var link := links[i];
      assert links[..i + 1][..i] == links[..i];
      if link !in visited' {
        if web.admits(link) {
          visited' := visited' + {link};
          queue' := queue' + [Entry(link, depth)];
          found := found + [link];
        }
      }
    }
    assert links[..|links|] == links;
  }

  /** Handles one fetched result. */
  method Handle(web: Web, limits: Limits, e: Entry, queue: seq<Entry>, visited: set<Url>, pages: nat)
    returns (queue': seq<Entry>, visited': set<Url>, pages': nat)
    ensures Work(queue', visited', pages') == HandleOne(web, limits, e, Work(queue, visited, pages))
  {
    queue', visited', pages' := queue, visited, pages;
    if web.process(e.url).Page? {
      pages' := pages + 1;
      if e.depth < limits.maxDepth {
        queue', visited' := Enqueue(web, web.links(e.url), e.depth + 1, queue, visited);
      } else {
        assert queue + Entries([], e.depth + 1) == queue && visited + Elements([]) == visited;
      }
    }
  }

  method HandleBatch(web: Web, limits: Limits, batch: seq<Entry>, queue: seq<Entry>, visited: set<Url>, pages: nat)
    returns (items: seq<Item>, queue': seq<Entry>, visited': set<Url>, pages': nat)
    requires AllFetched(web, batch) && pages + |batch| <= limits.maxPages
    ensures items == ItemsOf(web, batch)
    ensures Work(queue', visited', pages') == HandleAll(web, limits, batch, Work(queue, visited, pages))
    ensures CrawlOne(web, limits, batch + queue, visited, pages) ==
      items + CrawlOne(web, limits, queue', visited', pages')
    ensures pages <= pages' <= limits.maxPages && (pages' == pages ==> queue' == queue)
  {
    // All URLs of a batch are fetched before the first result is handled.
    var results := ItemsOf(web, batch);
    items, queue', visited', pages' := [], queue, visited, pages;
    ghost var all := HandleAll(web, limits, batch, Work(queue, visited, pages));
    assert batch[0..] == batch;
    for i := 0 to |batch|
      invariant HandleAll(web, limits, batch[i..], Work(queue', visited', pages')) == all
      invariant items == results[..i]
    {
      assert batch[i..][1..] == batch[i + 1..];
      queue', visited', pages' := Handle(web, limits, batch[i], queue', visited', pages');
      items := items + [results[i]];
    }
    BatchPages(web, limits, batch, Work(queue, visited, pages));
    BatchCrawls(web, limits, batch, Work(queue, visited, pages));
  }

  /** The depths never fall, and span at most two consecutive ones. */
  predicate TwoDepths(queue: seq<Entry>) {
    forall i, j :: 0 <= i <= j < |queue| ==> queue[i].depth <= queue[j].depth <= queue[0].depth + 1
  }

  lemma QueueHasTwoDepths(web: Web, limits: Limits, start: Url, log: Log)
    requires OnTheWay(web, limits, start, log)
    ensures TwoDepths(Waiting(log))
  {
    OnTheWayMeaning(web, limits, start, log);
    if log.next < |log.entries| {
      var queue := Waiting(log);
      assert forall i :: 0 <= i < |queue| ==> queue[i] == log.entries[log.next + i];
    }
  }

  lemma NothingWaits(web: Web, limits: Limits, start: Url, log: Log)
    requires OnTheWay(web, limits, start, log) && (Waiting(log) == [] || log.pages >= limits.maxPages)
    ensures log == Run(web, limits, Start(start))
  {
    OnTheWayMeaning(web, limits, start, log);
  }

  /**
   * The batched crawl, with the log of all it ever queued. It terminates, its log is that of the crawl that takes one
   * URL at a time, so it yields exactly that crawl's items in the same order, and it is a good crawl: no URL is fetched
   * twice, the page budget holds, and depths are breadth-first, within the limit, and least link distances. It queues
   * every permitted link of its pages and nothing else, and yields what the responses make of each URL.
   */
  method CrawlSite(site: Site, limits: Limits, start: Url) returns (items: seq<Item>, ghost log: Log)
    ensures items == CrawlOne(WebOf(site), limits, [Entry(start, 0)], {start}, 0)
    ensures log == Run(WebOf(site), limits, Start(start)) && items == log.items
    ensures GoodCrawl(WebOf(site), limits, start, log)
    ensures CrawlFacts.CrawlsSite(site, limits, start, log)
  {
    var web := WebOf(site);
    items, log := [], Start(start);
    var visited, queue := {start}, [Entry(start, 0)];
    var pages: nat := 0;
    assert Turns(web, limits, log, 0) == log;
    StartIsInv(web, limits, start);
    EveryCrawl(site, limits, start);
    CrawlFacts.RunCrawlsSite(site, limits, start);
    while queue != [] && pages < limits.maxPages
      invariant Tracks(web, limits, start, log, visited, pages)
      invariant Waiting(log) == queue && TwoDepths(queue) && log.items == items
      decreases limits.maxPages - pages, |queue|
    {
      var batch, rest, popped := FillBatch(web, limits, queue, visited, pages);
      if batch == [] {
        log := SkipRest(web, limits, start, log, visited, pages, popped, rest);
        break;
      }
      log := BatchFollows(web, limits, start, log, popped, batch, Work(rest, visited, pages));
      var more;
      more, queue, visited, pages := HandleBatch(web, limits, batch, rest, visited, pages);
      items := items + more;
      QueueHasTwoDepths(web, limits, start, log);
    }
    NothingWaits(web, limits, start, log);
  }
}
