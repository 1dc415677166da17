# A verified model of the retrieval service's core

The service turns documents into chunks, crawls sites for documents, ingests both through a job queue into a
multi-tenant database, and answers questions by hybrid retrieval under rate limits and monthly budgets. This project
models the parts of it whose promises span several functions, several requests or several workers, and proves those
promises for every input, every run and every interleaving. `dafny verify dfyconfig.toml` checks everything.

| component | files | what is proved |
|---|---|---|
| chunker | Text, Blocks, Markup, Sizing, Greedy, Packing, BlockFacts, Offsets, Separators, ChunkFacts, Sections, Chunker, Documents, Counterexamples | what is a heading, a paragraph and a cut; conservation, sections, sizes, overlaps, heading paths, source offsets, and exactly where they stop |
| crawler | Crawler, CrawlRuns, CrawlOrder, CrawlFacts, BatchCrawl | the batched crawl queues and yields what the one-at-a-time crawl does: which links, in which order, with which items; least link distances, page budget, no URL twice |
| ingestion | Ingest, IngestRuns, SourceRuns, IngestStore, StoredRows | committed sources and chunks agree in every interleaving with rollbacks; what a skip means; what queueing, ingesting and deleting leave behind |
| worker | JobQueue, Workers, WorkerRuns | attempts, disjoint claims, bounded handler starts, one live handler, and exactly which steps break it |
| retrieval | Retrieval, Fusion, Neighbours, NeighbourFacts, NeighbourOrder, RetrievalFacts | fused ranking, Pareto order, where agreement wins, reranked order, no hit lost, exact and ordered neighbour expansion |
| rate limiter | RateLimit | a call is allowed exactly if its window holds fewer allowed calls than the maximum; the pruned and evicted store forgets nothing that counts and stays small |
| tenancy | Tenancy, TenantRuns, TenantProcess | a transaction sees its own tenant's rows only, and exactly when begin and bind keep it so; scopes restore; the objects refine the transition system |
| budget | Budget, BudgetRuns | the overshoot bound over all interleavings, reached; rows sum what was recorded |

## How it is built

Code that works step by step is an imperative method or class here, proved equal to a function; what the source promises
is then proved about that function. Protocols (ingestion, workers, tenancy, budgets) are labelled transition systems: a
label is one statement or step of one participant, `Enabled` says when it can happen, `Apply` what it does, and a run is
any sequence of enabled labels. Where a promise holds only under a condition, a lemma states the condition in both
directions or a concrete run shows what happens without it.

- **Text.** Strings are sequences of characters with Python's whitespace and line separators. The four regular
  expressions of the chunker are scanners. The chunker's parser is compared with a declarative reading of the lines
  (`BlocksFrom`), its splitter with a chain of spans, and its packer with greedy packing under a policy, which is shown
  to have exactly one solution.
- **Crawler.** Fetching, parsing, link extraction, exclusion and URL validation are functions of the URL; URLs are only
  compared. The batched loop carries the log of a crawl that takes one URL at a time.
- **Ingestion.** A transaction carries its pending rows; commits apply them, rollbacks drop them, statements that would
  wait for a row lock or the advisory lock are not enabled. SHA-256 is taken to be injective. A session that had loaded
  the source row before `ingest_content` takes its lock keeps comparing with that row (the identity map does not
  refresh it), so the model carries what a session had loaded. The file-job handler is such a session.
- **Workers.** A claim locks rows, then commits (whether or not the worker learns of it) or aborts; a handler completes,
  gives up, is rejected or dies; a worker can crash at any point.
- **Retrieval.** Fusion scores and rerank scores are exact rationals; the searches and the reranker are oracles.
- **Tenancy.** A context variable per task, a stack of scopes, sessions on pooled connections, and a setting that lives
  as long as its transaction. The objects of a process (contexts, scope tokens, sessions) refine that system.
- **Budgets.** Dollars are exact rationals. A request's check, its record statement and its commit are separate steps,
  and the month can turn between any two of them.

Findings stated as lemmas, each with the exact condition where one is named:

- A separator that is no newline makes a paragraph longer than its source, so that a recorded end can lie behind the next
  block or the end of the text (`Counterexamples.CarriageReturnOverruns`; exactly when in `Chunker.ChunkSpansExactly` and
  `Chunker.PiecesOccurExactly`).
- A heading too long to stay whole can mix sections (`Counterexamples.OversizedHeadingMixes`): exactly when its first
  piece changes the path and does not meet the packer's guard (`Chunker.ChunkingKeepsSectionsExactly`, `Chunker.TurnsAreSplitHeadings`).
- A newline does not save a word from being cut (`Counterexamples.NewlineDoesNotSaveAWord`; exactly when in
  `Chunker.CutInsideWord`).
- An ingest whose session had loaded the row before can skip although other content is stored
  (`IngestStore.RememberedRowSkips`; exactly when in `IngestRuns.SkipMeansStored`).
- A completed job can be reopened, by stale recovery (`WorkerRuns.LateFailureReopens`) or because a handler is not told
  that its completion was committed (`WorkerRuns.UntoldCompletionReopens`; exactly which steps break the guarantee in
  `WorkerRuns.StepIsSafeExactly`).
- A job that dies on its last attempt stays pending for good (`WorkerRuns.DeadJobIsStranded`, `WorkerRuns.StrandedForGood`;
  exactly when in `WorkerRuns.RecoveredIsClaimable`).
- From 62 results on, a chunk found by both searches need not precede one found by a single search
  (`Fusion.AgreementWinsExactlyTo61`).
- A hit found by both searches is labelled as a keyword hit exactly when its vector distance is 0.99995 or more, which is
  stored as 1 (`RetrievalFacts.LabelTellsBothSearches`).
- A session first used in a scope nested in its own runs as the inner tenant (`TenantRuns.OuterSessionInInnerScope`;
  exactly when in `TenantRuns.BeginIsSafeExactly` and `TenantRuns.BindIsSafeExactly`).

Where the comment in `worker.py` about jobs processed from one long-lived task differs from the code, which starts a task
for each job, the model follows the code: a task starts with a copy of its parent's context.

## Model

| member | source | states |
|---|---|---|
| Blocks.FenceParity | app/services/chunker.py:64-83 | a line is inside a fence exactly when an odd number of fence lines precede it |
| Markup.FenceMeaning | app/services/chunker.py:13-13 | a line is a fence line exactly if its stripped text begins with three backticks or three tildes |
| Markup.HeadingMeaning | app/services/chunker.py:12-15 | a line reads as a heading exactly if it is one to six '#', whitespace and a text, and its title is the text without trailing permalink glyphs, stripped |
| Text.SplitLinesMeaning | app/services/chunker.py:66-66 | a line has no separator before its end, all but the last end in one, and no carriage return is parted from its newline |
| Blocks.PushKeepsOpen | app/services/chunker.py:88-91 | popping equal or deeper headings and pushing one turns the open headings of a prefix into those of the next |
| Blocks.PathMeaning | app/services/chunker.py:85-92 | at every line the stack is, in order and with rising levels, exactly the earlier headings that no later one closes |
| Blocks.ParseBlocks | app/services/chunker.py:48-102 | the line scanner with its fence flag, stack, buffer and offsets yields the declarative partition of the document |
| Documents.HeadingsExactly | app/services/chunker.py:69-99 | a heading block starts at a line exactly if it is no fence line, an even number of fence lines precede it, and it reads as a heading |
| Documents.FencedTogether | app/services/chunker.py:69-83 | the lines from an opening fence through its closing one lie in one paragraph, blank lines included |
| Documents.BlocksExactly | app/services/chunker.py:48-102 | a block is one of the document's exactly if it is the heading of a heading line or a whole run of prose lines, each with the path of the headings still open |
| Documents.BlocksInLineOrder | app/services/chunker.py:48-102 | the blocks come in the order of their lines, none twice |
| Sizing.CutPointMeaning | app/services/chunker.py:105-113 | the cut is the last sentence end past the start, else the last space past the start, else the whole window |
| Sizing.LastBreak | app/services/chunker.py:105-113 | the loop over sentence ends finds that cut, which is positive |
| Sizing.SpansChain | app/services/chunker.py:124-133 | the cuts cover the text from end to end, each at most the size, with only skipped whitespace between them |
| Sizing.SpansCutWell | app/services/chunker.py:105-133 | only whole windows are cut, each at its best place |
| BlockFacts.FittingStays | app/services/chunker.py:120-123 | a block stays as it is exactly if it fits |
| Sizing.SplitBlock | app/services/chunker.py:124-135 | the splitting loop yields the stripped non-empty pieces of that chain, with their recorded starts |
| Sizing.EnforceMaxSize | app/services/chunker.py:116-136 | blocks that fit stay as they are and the others are replaced by their pieces, in order |
| Greedy.PackIsPacking | app/services/chunker.py:180-207 | greedy packing obeys its rules and loses, adds and reorders nothing |
| Greedy.PackingUnique | app/services/chunker.py:180-207 | there is only one packing that obeys the rules |
| Packing.Emit | app/services/chunker.py:159-176 | emitting appends the rendered chunk: text, position, situating path and span |
| Packing.NextSeed | app/services/chunker.py:200-204 | the seed is the overlap of the closed chunk's full text, within what the next block leaves room for |
| Packing.MergeIntoChunks | app/services/chunker.py:151-208 | the packing loop with its seed and current blocks yields the greedy packing, rendered |
| ChunkFacts.PackerIsGreedy | app/services/chunker.py:180-207 | a list of groups is the packer's exactly when every block joined its chunk, every chunk was closed only because the next block does not join, and every seed is the overlap of the chunk before |
| BlockFacts.ParsingKeepsInk | app/services/chunker.py:48-102 | the blocks hold exactly the non-space characters of the lines they come from |
| BlockFacts.BlockOrigin | app/services/chunker.py:66-102 | every block is a heading line, or the maximal run of body lines that begins on its line |
| BlockFacts.SizingKeepsInk | app/services/chunker.py:116-136 | splitting loses and invents no non-space character |
| BlockFacts.SizedShape | app/services/chunker.py:116-136 | after sizing every block is at most the chunk size long and trimmed |
| BlockFacts.SizedSteady | app/services/chunker.py:129-135 | after sizing only headings change the path, exactly if no heading longer than the chunk size changes it |
| Separators.ParagraphLength | app/services/chunker.py:57-62 | a paragraph is as long as its stripped source plus the lines before its last ink that do not end in a newline |
| Separators.BlockOccurs | app/services/chunker.py:57-62 | a block occurs in the source behind the indentation of its first line exactly if it is a heading or every line before its last ink ends in a newline |
| Separators.BlocksInOrder | app/services/chunker.py:66-102 | the parsed blocks are in order and inside the source exactly if in each paragraph the lines before its last ink that do not end in a newline do not outnumber the whitespace around its ink up to the next block |
| Sections.SectionsKeptExactly | app/services/chunker.py:180-207 | packed chunks keep sections apart exactly if every block that changes the path without being a heading finds headings only in the open chunk, or neither joins it nor takes an overlap from it |
| Chunker.ChunkText | app/services/chunker.py:38-45 | the three stages and the early return compute the specified chunks |
| Chunker.ChunkingConserves | app/services/chunker.py:38-208 | for every text, size and overlap the chunk bodies hold exactly the source's non-space characters in order; without overlap the chunk texts do |
| Chunker.ChunkingKeepsSectionsExactly | app/services/chunker.py:163-208 | each chunk's blocks of prose have the path the chunk reports, its headings come first, seeds stay in their section and only the last chunk can lack prose, for every text, size and overlap exactly if the first piece of each split heading that changes the path finds headings only in the open chunk, or neither joins it nor takes an overlap from it |
| Chunker.ChunkReports | app/services/chunker.py:159-176 | a chunk reports the path of its first block that is no heading, or of its last if all are; the span from its first block's start to its last block's end; its seed, if any, before its blocks |
| Chunker.ChunkEnds | app/services/chunker.py:180-205 | every block fits behind those before it in its chunk, and the block behind a chunk does not |
| Chunker.TurnsAreSplitHeadings | app/services/chunker.py:129-135 | the blocks in question are the first pieces of headings longer than the chunk size |
| Chunker.ChunkingKeepsSections | app/services/chunker.py:163-208 | in particular sections are kept if no heading longer than the chunk size changes the path |
| Chunker.ShortHeadingsAreSafe | app/services/chunker.py:120-135 | the condition of the section theorem holds when no heading line is longer than the chunk size |
| Chunker.ChunkingBounds | app/services/chunker.py:192-205 | a chunk is at most the chunk size long, or a heading run with at most one prose block and then at most the run plus 2 plus the size |
| Chunker.ChunkingSeeds | app/services/chunker.py:139-148 | a non-empty seed is a proper suffix of the previous chunk's text, within the overlap, that starts behind whitespace; the first chunk and a heading have none |
| Chunker.SeedsExactly | app/services/chunker.py:139-148 | it starts behind the first sentence end in the last characters that overlap and room allow, else behind their first space, and is empty exactly if there is no such start or the next block is a heading |
| Chunker.BlockPaths | app/services/chunker.py:66-99 | a block's path lists in order, exactly the heading lines outside fences, up to its own, that no later one of equal or smaller level closes |
| Chunker.ChunkSpansExactly | app/services/chunker.py:165-176 | for every size and overlap the chunk spans are non-empty, inside the source, disjoint and in order, exactly if in each paragraph the separators that are no newlines do not outnumber the whitespace around its ink |
| Chunker.ChunkSpans | app/services/chunker.py:165-176 | in particular they are for newline-separated text |
| Chunker.PiecesOccurExactly | app/services/chunker.py:124-135 | all pieces of a block occur verbatim in the source at their start, shifted by its first indentation, exactly if it is a heading or all its separators before its last ink are newlines |
| Chunker.CutInsideWord | app/services/chunker.py:105-113 | a cut falls inside a word exactly when the window has no sentence end and no space past its start and the text runs on |
| Counterexamples.CarriageReturnOverruns | app/services/chunker.py:66-75 | a text whose lines end in a bare carriage return gets an end offset behind its own end |
| Counterexamples.OversizedHeadingMixes | app/services/chunker.py:129-135 | a text with a heading longer than the chunk size whose chunk holds prose of two paths |
| Counterexamples.NewlineDoesNotSaveAWord | app/services/chunker.py:112-113 | a text whose two chunks meet inside a word although the first holds a newline |
| Crawler.DropExcluded | app/services/crawler.py:119-122 | dropping an excluded URL from anywhere in the queue changes nothing that is yielded |
| BatchCrawl.FillBatch | app/services/crawler.py:116-125 | a batch holds at most five URLs, just those of the popped entries that are not excluded, never more than the page budget allows, and crawling it first is crawling the queue |
| BatchCrawl.Enqueue | app/services/crawler.py:189-202 | queues each admitted new link once, in order, and marks it visited |
| BatchCrawl.HandleBatch | app/services/crawler.py:165-210 | handling fetched results in pop order equals crawling them one at a time |
| BatchCrawl.BatchFollows | app/services/crawler.py:165-210 | handling a batch is a stretch of the one-at-a-time run: afterwards the queue is what waits in that run, the visited set is all it ever queued, and page count and items agree |
| BatchCrawl.CrawlSite | app/services/crawler.py:85-212 | the batched loop terminates; all it ever queued, with depths, and all it yields, in order, are those of the one-at-a-time run; at each turn its queue spans at most two consecutive depths; it is a good crawl; and told by the site alone, it queues exactly the Wikipedia articles and the validated URLs outside Wikipedia that its pages above the depth limit link to, page by page and link by link, yields for each popped URL the page, the error or the first reason to skip it, and stops only for want of URLs or at max_pages |
| CrawlFacts.RunCrawlsSite | app/services/crawler.py:134-205 | which links a run queues, in which order, which item each URL gives and when it stops |
| CrawlOrder.RunKeepsOrder | app/services/crawler.py:189-205 | in every run the queue is ordered by the page that first offered each link, and for one page by its list of links |
| CrawlRuns.RunYieldsCrawl | app/services/crawler.py:115-210 | the one-at-a-time run yields the reference crawl's items |
| CrawlRuns.RunKeepsInv | app/services/crawler.py:115-210 | every such run keeps: no URL queued twice, breadth-first depths, every entry linked from a crawled page, all admitted links queued |
| CrawlRuns.NoShorterRoute | app/services/crawler.py:189-202 | no chain of links through crawled pages is shorter than a queued URL's depth |
| CrawlRuns.EveryCrawl | app/services/crawler.py:101-210 | in every such run, and so in the batched loop, no URL is fetched twice, at most max_pages pages come out, and each depth is the least link distance and at most max_depth |
| IngestRuns.NewRowsExact | app/services/ingest.py:271-289 | the inserted rows are the chunks, one at each position |
| IngestRuns.CommitIngestKeeps | app/services/ingest.py:233-320 | committing an ingest replaces its source's rows, count and hash together and touches no other source |
| IngestRuns.StepKeeps | app/services/ingest.py:35-65 | every statement of every transaction keeps the invariant of database, locks and pending writes |
| IngestRuns.EveryRunIsConsistent | app/services/ingest.py:206-324 | after any interleaving of ingests, queue upserts, status updates, deletions and rollbacks each source has exactly the chunks behind its stored hash |
| IngestRuns.StoredChunksAreCounted | app/services/ingest.py:294-299 | a committed source has exactly chunk_count rows and a key without a source has none |
| IngestRuns.PositionsAreUnique | app/services/ingest.py:280-280 | a source and a position name at most one committed row |
| IngestRuns.SkipMeansStored | app/services/ingest.py:218-231 | a checked ingest matches exactly when its content is stored, unless its session remembers another row; and exactly when that misleads |
| IngestRuns.CommitStoresContent | app/services/ingest.py:291-320 | an ingest that commits without a remembered row leaves its own content stored |
| SourceRuns.QueuedIsCommitted | app/services/ingest.py:45-67 | a queue statement, any steps of others, and its commit leave the queued status, the supplied text or the old one, hash and count of the last ingest, and the chunks as they were |
| SourceRuns.RecordedIsCommitted | app/services/ingest.py:144-320 | the upsert of an ingest, any steps of others, and its commit leave the row complete with its text, or failed with no chunks and the old text when there were none |
| SourceRuns.SkippedIsCommitted | app/services/ingest.py:227-231 | a skip leaves the row complete and otherwise as it was |
| SourceRuns.ChangesShowAtCommit | app/services/ingest.py:206-329 | nothing shows before a commit, a commit touches only what its transaction wrote, and a deletion leaves neither row nor chunks |
| IngestStore.ReplacedMeaning | app/services/ingest.py:233-320 | a call that replaces its source leaves that row and those chunks, and touches nothing else |
| IngestStore.Store.InsertRows | app/services/ingest.py:271-289 | the insert adds one row for each chunk at fresh ids |
| IngestStore.Store.IngestContent | app/services/ingest.py:184-329 | the call, statement by statement, is a run of the protocol; it skips exactly when its content is stored, raises without a trace, and otherwise stores its content |
| IngestStore.RememberedRowSkips | app/worker.py:187-202 | a run in which an ingest that loaded its row early skips although other content is stored |
| IngestStore.RowsAreTheirChunks | app/services/ingest.py:248-287 | every committed row is the chunk the chunker gives its source's content at that position, and carries that position |
| StoredRows.IngestedRowsAreUnique | app/services/retrieval.py:194-200 | the rows ingestion commits have the uniqueness that neighbour lookup relies on |
| JobQueue.ClaimIsDetermined | app/worker.py:42-51 | the selection rule (claimable, unlocked, oldest first, up to the limit) has exactly one answer |
| JobQueue.JobTable.ClaimJobs | app/worker.py:39-60 | selects the oldest pending rows with an attempt left that nobody has locked, and sets status, attempts and claim time of these only |
| JobQueue.JobTable.MarkComplete | app/worker.py:63-70 | sets one row's status and nothing else |
| JobQueue.JobTable.MarkFailed | app/worker.py:73-81 | fails the row when attempts are spent and puts it back otherwise |
| JobQueue.JobTable.RecoverStaleJobs | app/worker.py:102-128 | the two updates put back exactly the running jobs claimed more than ten minutes ago, or thirty for a crawl |
| Workers.StepKeeps | app/worker.py:398-415 | every step keeps: locked rows claimable, claims disjoint, attempts within the maximum, tasks within the slots |
| WorkerRuns.ClaimsAreDisjoint | app/worker.py:39-60 | in every run open claims are disjoint and no worker has more tasks than slots |
| WorkerRuns.ClaimIsAStep | app/worker.py:398-405 | the table's claim within the free slots is a step of the protocol |
| WorkerRuns.AttemptsAreClaims | app/worker.py:53-57 | a job's attempts are the number of times it was claimed and never exceed its maximum |
| WorkerRuns.HandlerRunsAreBounded | app/worker.py:398-405 | every claim takes from a finite supply of attempts, so handler starts are bounded in every run |
| WorkerRuns.OneLiveHandler | app/worker.py:332-363 | while recovery spares live handlers and no handler misses its committed completion, a job has at most one live handler and is running while it has one |
| WorkerRuns.EndedForGood | app/worker.py:63-81 | in such runs complete and failed are never left |
| WorkerRuns.HandlerMarksItsRow | app/worker.py:332-363 | a handler that ends completes, fails or puts back its own job and changes nothing else of the table |
| WorkerRuns.PutBackIsClaimable | app/worker.py:73-81 | a job that is given up is failed exactly when its attempts are spent and claimable otherwise |
| WorkerRuns.StepIsSafeExactly | app/worker.py:332-363 | any step keeps handlers and jobs in step exactly when it neither recovers a job whose handler is alive nor commits a completion its handler is not told of |
| WorkerRuns.RecoveredIsClaimable | app/worker.py:102-128 | recovery puts back exactly those jobs, and one of them can be claimed again exactly when it has an attempt left |
| WorkerRuns.StrandedForGood | app/worker.py:43-48 | a pending job without attempts and without a handler stays so in every run |
| WorkerRuns.DeadJobIsStranded | app/worker.py:102-128 | a run that strands a job: its worker crashes on the last attempt and recovery puts it back with none left |
| WorkerRuns.LateFailureReopens | app/worker.py:102-128 | a run in which recovery takes a job from a live handler and a late failure reopens the completed job |
| WorkerRuns.UntoldCompletionReopens | app/worker.py:355-363 | a run without recovery in which a handler, not told of its committed completion, reports a failure that makes the job claimable |
| Retrieval.RrfMerge | app/services/retrieval.py:106-134 | the two passes and the sort return the rows of the fused ids in their order, the vector distance or 1 for every chunk, and the keyword ranks |
| Retrieval.ScoreMeaning | app/services/retrieval.py:120-130 | the accumulated score is the sum of both rankings' shares |
| Fusion.RankedIsSorted | app/services/retrieval.py:132-132 | the stable sort orders every pair by falling score, ties as first seen |
| Fusion.FusedIsTopOfRanking | app/services/retrieval.py:132-134 | no chunk twice, as many as the limit allows, in order, and everything left out goes behind everything returned |
| Fusion.RowsComeBestFirst | app/services/retrieval.py:132-134 | the returned rows repeat no chunk and each leads all behind it and all left out, by score or on a tie because the searches gave it first; none is left out below the limit |
| Fusion.DominanceIsKept | app/services/retrieval.py:120-134 | a chunk ranked ahead of another in every list that has the other stays ahead among the returned rows |
| Fusion.AgreementWinsExactlyTo61 | app/services/retrieval.py:18-18 | chunks found by both searches always precede chunks found by one, for all rankings of at most n rows, exactly when n is at most 61 |
| RetrievalFacts.RerankedAreChunks | app/services/retrieval.py:137-167 | reranking returns chunks it was given, none twice, whether it succeeds, fails or is skipped |
| RetrievalFacts.RerankedInOrder | app/services/retrieval.py:161-165 | the reranked chunks come in the order the reranker answered, without exactly those whose score misses a positive threshold |
| RetrievalFacts.UnrankedStays | app/services/retrieval.py:145-160 | a single chunk is left alone, and a reranker that raises leaves the fused order cut at top_k |
| RetrievalFacts.ThresholdDecides | app/services/retrieval.py:161-165 | with a positive threshold a reranked chunk is kept exactly when its score reaches it |
| Neighbours.ExpandNeighbours | app/services/retrieval.py:170-214 | the loops compute the expansion and exactly the added ids |
| NeighbourFacts.HitsKeepTheirOrder | app/services/retrieval.py:175-177 | filtering the expansion to the hits gives the hits in their order |
| NeighbourFacts.ExpansionIs | app/services/retrieval.py:183-212 | for any stored rows the expansion is the hits and, at each place within the radius of a hit where no hit stands, the last stored row, each once |
| NeighbourFacts.ExpansionIsExact | app/services/retrieval.py:183-212 | that is the hits and every stored chunk of the same source within the radius of one, exactly if no two rows near a hit share a source and a position without both being hits |
| NeighbourOrder.ExpansionInOrder | app/services/retrieval.py:202-212 | the expansion is ordered by the hit that first pulls each row in, and for one hit by position, so its neighbours stand around it |
| NeighbourFacts.ExpansionIsBounded | app/services/retrieval.py:204-212 | at most 2 * radius + 1 chunks for each hit |
| RetrievalFacts.NoHitIsLost | app/services/retrieval.py:265-278 | whatever the searches and the reranker answer and whatever rows are stored, the caller receives the reranked hits cut at its limit, all of them and in order, each chunk once, and at most 2 * radius + 1 chunks for each |
| RetrievalFacts.NothingElseIsReturned | app/services/retrieval.py:265-278 | whatever is stored, the caller receives the hits and all stored chunks near them and nothing else, exactly under that condition |
| RetrievalFacts.DistanceTells | app/services/retrieval.py:106-130 | a chunk's distance is what the vector search gave it, and 1 if only the keyword search found it |
| RetrievalFacts.LabelTellsBothSearches | app/services/retrieval.py:33-43 | a hit is labelled hybrid exactly when both searches found it and its vector distance is below 0.99995, so that it does not round to 1; and a vector hit exactly when the keyword search did not find it |
| RateLimit.RateLimiter.IsAllowed | app/services/rate_limit.py:20-44 | answers from the recent times and leaves the pruned, evicted and extended store |
| RateLimit.AnswerDecides | app/services/rate_limit.py:31-43 | with a clock that does not go back, a call is allowed exactly if fewer earlier calls of its key than the maximum were allowed within the window before it |
| RateLimit.StoreStaysSmall | app/services/rate_limit.py:33-37 | after a call the store holds at most one key more than the limit on keys, or only keys with a request in the window |
| RateLimit.CallAgrees | app/services/rate_limit.py:26-43 | one call answers as the full history does and keeps store and history in step |
| RateLimit.NewLimiterAnswers | app/services/rate_limit.py:20-44 | on every sequence of calls with a clock that does not go back the answers are those of a limiter that forgets nothing |
| RateLimit.NoWindowOverruns | app/services/rate_limit.py:39-44 | no half-open window of the configured length holds more allowed calls of a key than the maximum |
| Tenancy.Session.Begin | app/database.py:13-39 | opening a transaction publishes the tenant of its context if it has one and nothing otherwise |
| Tenancy.Session.BindTenant | app/tenancy.py:56-70 | binding sets the variable and the live transaction |
| Tenancy.EnterScope | app/tenancy.py:40-53 | entering sets the variable and returns what restores it |
| TenantRuns.StepKeeps | app/tenancy.py:40-70 | every disciplined step keeps variables, scopes, settings and connections in agreement |
| TenantRuns.OnlyOwnRowsAreVisible | migrations/versions/i6j7k8l9m0n1_enforce_tenant_isolation.py:32-32 | in every interleaving a transaction sees rows of its own tenant only, and an unused connection shows none |
| TenantRuns.TransactionsArePublished | app/database.py:16-24 | a transaction that begins or is bound once its frame has a tenant sees exactly that tenant's rows |
| TenantRuns.ScopesRestore | app/tenancy.py:49-53 | leaving a scope puts back what was there, whatever ran inside it or beside it |
| TenantRuns.BeginIsSafeExactly | app/database.py:36-39 | a new transaction is safe exactly when the variable holds its own tenant or none |
| TenantRuns.BindIsSafeExactly | app/tenancy.py:56-70 | binding anywhere leaves every transaction safe exactly when the session's own frame acts for that tenant already, or is the running frame and acts for nobody yet |
| TenantRuns.OuterSessionInInnerScope | app/tenancy.py:40-53 | a run in which a session first used in a nested scope sees the inner tenant's rows |
| TenantProcess.Process.Spawn | app/worker.py:398-415 | a task starts with a copy of its parent's context and no scope |
| TenantProcess.Process.Bind | app/tenancy.py:56-70 | on the objects, binding does what the labels say: with a transaction open a bind, otherwise a begin and a bind |
| TenantProcess.OperationIsStep | app/tenancy.py:40-70 | each operation on contexts, scopes and sessions takes the objects to what its label's state shows, and can be called whenever the label is enabled |
| TenantProcess.SessionsSeeOwnRows | migrations/versions/i6j7k8l9m0n1_enforce_tenant_isolation.py:32-32 | after any disciplined sequence of operations on the objects a session sees rows of its own frame's tenant only |
| Budget.Ledger.CheckBudget | app/services/budget.py:114-126 | admits exactly when there is no row, or its cost is below the plan's limit and, without an own key, below 10 dollars |
| Budget.Ledger.RecordUsage | app/services/budget.py:74-108 | inserts the month's row or adds to it: the tokens, and input and output tokens each at their price per million |
| BudgetRuns.RowsSumRecords | app/services/budget.py:88-103 | in every interleaving a month's row sums its committed records and costs what its totals cost |
| BudgetRuns.OvershootIsBounded | app/api/chat.py:160-213 | with at most k requests between check and record, each costing at most c, no month passes the plan's own limit by more than k * c, nor 10 dollars without an own key |
| BudgetRuns.OvershootIsReached | app/services/budget.py:114-126 | from any quiet state within budget k requests can each add their whole cost |

## Left out

- URL normalisation, redirects, robots and the prefix filter: inside the link oracle of the crawler, string plumbing.
- HTML and PDF extraction, embedding, reranking and generation: oracles; their failures are the error branches of the model.
- The content hash is a pair of content and settings: two different pairs that would format to the same string are not modelled, and neither is the pipeline version, which is a constant.
- Deletions and purges of sources are steps that do not overlap an open transaction of the same source; they take no advisory lock, and nothing is claimed of such an overlap.
- Job rows that the queue functions add beside the source upsert, source URLs, content types, status details and embedding costs: stored and never read by the protocols here.
- Completion times and error texts of jobs; ties in creation time (rows are in creation order).
- Clock skew between workers: recovery takes the time as given.
- Floating point: rationals are exact here, so ties may break differently. The rounding of a stored distance to four digits is modelled, that of rerank scores is not, as they are only reported.
- Search itself (vector and full-text order) and rows added by other transactions between the searches and the neighbour lookup.
- Savepoints: the tenant setting is modelled for whole transactions.
- Conversation and message rows written beside the usage record, and embedding and rerank prices; a plan carries the price of its generation model, the price table is not part of this model.
- Caches, CORS, schemas, CRUD endpoints, logging, tracing, middleware and deployment: they would add easy members only.
