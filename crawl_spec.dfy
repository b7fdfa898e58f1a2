/** The crawl driver of main.py:136-180 as a state machine over values.
    A `Run` holds the driver's state: the dedup ledger (`existing_urls`),
    the accumulator (`articles_data`), the output table, the checkpoint
    file and the log of the driver's effects. Each function below is one
    step or one loop of `main()`, written as a forward recursion so that
    the imperative driver can be proved equal to it loop by loop. */
module CrawlSpec {
  import opened Wrappers
  import opened Checkpoint
  import opened TextFeatures
  import opened PageExtractor
  import opened OutputSink
  import opened Effects

  /** BATCH_SIZE (main.py:26). */
  const BatchSize: nat := 50

  /** What the network answers. `index` is the list of section sitemaps
      (None when fetching or parsing it raises), `articles` the article URLs
      of one section sitemap (None when that raises), `page` the parsed
      article page (None when fetching or extracting it raises). */
  datatype Oracles = Oracles(
    index: Option<seq<Url>>,
    articles: Url -> Option<seq<Url>>,
    page: Url -> Option<Document>,
    nlp: Nlp)

  datatype Run = Run(
    ledger: set<Url>,
    pending: seq<ArticleRecord>,
    present: bool,
    lines: seq<Line>,
    checkpoint: Option<string>,
    log: seq<Event>,
    aborted: bool)

  /** What the loop body of `main()` calls: `fetch_article_urls` and
      `scrape_article`, as function values. */
  datatype Env = Env(articles: Url -> Option<seq<Url>>, scrape: Url -> Option<ArticleRecord>)

  /** A scraper keeps the URL it was given in the record it returns. */
  ghost predicate KeepsUrl(scrape: Url -> Option<ArticleRecord>) {
    forall url :: scrape(url).Some? ==> scrape(url).value.url == url
  }

  /** The environment of a run against the oracles: `scrape_article` is
      `Scrape` of the fetched page. */
  function EnvOf(o: Oracles): (e: Env)
    ensures e.articles == o.articles && KeepsUrl(e.scrape)
  {
    var scrape := url => Scrape(url, o.page(url), o.nlp);
    assert KeepsUrl(scrape) by {
      forall url ensures scrape(url).Some? ==> scrape(url).value.url == url {
        assert scrape(url) == Scrape(url, o.page(url), o.nlp);
      }
    }
    Env(o.articles, scrape)
  }

  /** The scraper of `EnvOf(o)` is `scrape_article` against the oracles. */
  lemma EnvOfScrape(o: Oracles, url: Url)
    ensures EnvOf(o).scrape(url) == Scrape(url, o.page(url), o.nlp)
  {
  }

  /** One article URL (main.py:161-166): skipped when in the ledger;
      otherwise scraped, and on success queued and added to the ledger. */
  function Visit(e: Env, r: Run, url: Url): Run {
    if url in r.ledger then r
    else match e.scrape(url)
      case None => r.(log := r.log + [Scraped(url, false)])
      case Some(rec) =>
        r.(ledger := r.ledger + {url}, pending := r.pending + [rec],
           log := r.log + [Scraped(url, true)])
  }

  /** The URLs `batch[j..]` in order (main.py:160). */
  function VisitFrom(e: Env, r: Run, batch: seq<Url>, j: nat): Run
    decreases |batch| - j
  {
    if j >= |batch| then r else VisitFrom(e, Visit(e, r, batch[j]), batch, j + 1)
  }

  /** The flush after a batch (main.py:169-175): only a non-empty
      accumulator is written, with the header when it creates the file. */
  function Flush(r: Run): Run {
    if r.pending == [] then r
    else r.(present := true, lines := AfterAppend(r.present, r.lines, r.pending),
            log := r.log + [Appended(r.pending, !r.present)], pending := [])
  }

  /** The end of the batch `urls[i:i+size]`, as Python clamps it. */
  function BatchEnd(i: nat, size: nat, n: nat): (e: nat)
    requires i < n
    ensures i < e <= n || size == 0
  {
    if i + size < n then i + size else n
  }

  /** The batches starting at offsets `i`, `i + size`, ... (main.py:158-175). */
  function BatchesFrom(e: Env, r: Run, urls: seq<Url>, i: nat, size: nat): Run
    requires size > 0
    decreases |urls| - i
  {
    if i >= |urls| then r
    else BatchesFrom(e, Flush(VisitFrom(e, r, urls[i..BatchEnd(i, size, |urls|)], 0)), urls, i + size, size)
  }

  /** One section whose article URLs are `urls` (main.py:156-177): a fresh
      accumulator, all batches, then the checkpoint. */
  function Section(e: Env, r: Run, idx: nat, urls: seq<Url>, size: nat): Run
    requires size > 0
  {
    var done := BatchesFrom(e, r.(pending := []), urls, 0, size);
    done.(checkpoint := Some(SavedText(idx)), log := done.log + [Saved(idx)])
  }

  /** The sections `sections[idx..]` (main.py:149-178). A section sitemap
      that cannot be fetched raises out of `main`: the run stops there. */
  function RunFrom(e: Env, r: Run, sections: seq<Url>, idx: nat, size: nat): Run
    requires size > 0
    decreases |sections| - idx
  {
    if idx >= |sections| then r
    else
      var r1 := r.(log := r.log + [FetchedSection(idx)]);
      match e.articles(sections[idx])
      case None => r1.(aborted := true)
      case Some(urls) => RunFrom(e, Section(e, r1, idx, urls, size), sections, idx + 1, size)
  }

  /** The state after main.py:137-144: ledger seeded from the table. */
  function Initial(checkpoint: Option<string>, present: bool, lines: seq<Line>): Run {
    Run(ExistingUrls(present, lines), [], present, lines, checkpoint, [], false)
  }

  /** A whole run of `main()` from the given checkpoint file and table. */
  function CrawlRun(o: Oracles, size: nat, checkpoint: Option<string>, present: bool, lines: seq<Line>): Run
    requires size > 0
  {
    var r := Initial(checkpoint, present, lines);
    match o.index
    case None => r.(aborted := true)
    case Some(sections) => RunFrom(EnvOf(o), r, sections, LoadCheckpoint(checkpoint), size)
  }

  // ----- Views of the log -----

  function Last(log: seq<Event>): Event
    requires log != []
  {
    log[|log| - 1]
  }

  function Init(log: seq<Event>): seq<Event>
    requires log != []
  {
    log[..|log| - 1]
  }

  /** The URLs of the successful scrapes, in order. */
  function Successes(log: seq<Event>): seq<Url> {
    if log == [] then []
    else Successes(Init(log)) + (if Last(log).Scraped? && Last(log).ok then [Last(log).url] else [])
  }

  /** The URLs passed to `scrape_article`, in order, successful or not. */
  function Attempts(log: seq<Event>): seq<Url> {
    if log == [] then []
    else Attempts(Init(log)) + (if Last(log).Scraped? then [Last(log).url] else [])
  }

  /** Every row appended to the table, in order. */
  function AppendedRows(log: seq<Event>): seq<ArticleRecord> {
    if log == [] then []
    else AppendedRows(Init(log)) + (if Last(log).Appended? then Last(log).rows else [])
  }

  /** The sizes of the appends, in order. */
  function AppendSizes(log: seq<Event>): seq<nat> {
    if log == [] then []
    else AppendSizes(Init(log)) + (if Last(log).Appended? then [|Last(log).rows|] else [])
  }

  /** The number of appends that wrote the header. */
  function HeaderCount(log: seq<Event>): nat {
    if log == [] then 0
    else HeaderCount(Init(log)) + (if Last(log).Appended? && Last(log).header then 1 else 0)
  }

  /** The indices of the section sitemaps fetched, in order. */
  function Fetches(log: seq<Event>): seq<nat> {
    if log == [] then []
    else Fetches(Init(log)) + (if Last(log).FetchedSection? then [Last(log).index] else [])
  }

  /** The indices saved to the checkpoint file, in order. */
  function Saves(log: seq<Event>): seq<nat> {
    if log == [] then []
    else Saves(Init(log)) + (if Last(log).Saved? then [Last(log).index] else [])
  }

  function Urls(records: seq<ArticleRecord>): (r: seq<Url>)
    ensures |r| == |records| && forall i :: 0 <= i < |records| ==> r[i] == records[i].url
  {
    seq(|records|, i requires 0 <= i < |records| => records[i].url)
  }

  function ToSet(s: seq<Url>): set<Url> {
    set u | u in s
  }

  predicate AllDistinct(s: seq<Url>) {
    forall i, j :: 0 <= i < j < |s| ==> s[i] != s[j]
  }

  /** [lo, lo + 1, ..., hi - 1]. */
  function Range(lo: nat, hi: nat): (r: seq<nat>)
    requires lo <= hi
    ensures |r| == hi - lo && forall i :: 0 <= i < |r| ==> r[i] == lo + i
  {
    seq(hi - lo, i requires 0 <= i < hi - lo => lo + i)
  }

  /** How many sections from `idx` on have their sitemap fetched
      successfully before the first one that fails. */
  function Completed(e: Env, sections: seq<Url>, idx: nat): (k: nat)
    ensures idx + k <= |sections| || k == 0
    decreases |sections| - idx
  {
    if idx >= |sections| || e.articles(sections[idx]).None? then 0
    else 1 + Completed(e, sections, idx + 1)
  }

  /** The sizes of the batches of `n` URLs: `size`, ..., `size`, rest. */
  function ChunkSizes(n: nat, size: nat): seq<nat>
    requires size > 0
    decreases n
  {
    if n == 0 then [] else if n <= size then [n] else [size] + ChunkSizes(n - size, size)
  }

  /** How each view of the log grows when one event is logged. */
  lemma LogStep(log: seq<Event>, e: Event)
    ensures Successes(log + [e]) == Successes(log) + (if e.Scraped? && e.ok then [e.url] else [])
    ensures Attempts(log + [e]) == Attempts(log) + (if e.Scraped? then [e.url] else [])
    ensures AppendedRows(log + [e]) == AppendedRows(log) + (if e.Appended? then e.rows else [])
    ensures AppendSizes(log + [e]) == AppendSizes(log) + (if e.Appended? then [|e.rows|] else [])
    ensures HeaderCount(log + [e]) == HeaderCount(log) + (if e.Appended? && e.header then 1 else 0)
    ensures Fetches(log + [e]) == Fetches(log) + (if e.FetchedSection? then [e.index] else [])
    ensures Saves(log + [e]) == Saves(log) + (if e.Saved? then [e.index] else [])
  {
    assert Init(log + [e]) == log && Last(log + [e]) == e;
  }
}
