/** The crawl driver `main()` (main.py:136-180) as imperative code: the
    dedup ledger `existing_urls` is a local set, the accumulator
    `articles_data` a local sequence, the output table and the checkpoint
    file are objects updated in place. The effects land in the journal the
    table and the checkpoint file share: `CsvFile.Append` and
    `CheckpointFile.Save` record themselves, and the driver records the
    fetches and scrapes, which are calls of pure oracles. Each loop is
    proved to compute the state-machine step of CrawlSpec it implements,
    with the journal as the run's log, so every property proved about the
    log of `CrawlRun` holds of the calls this method makes. */
module CrawlDriver {
  import opened Wrappers
  import opened Checkpoint
  import opened PageExtractor
  import opened OutputSink
  import opened Effects
  import opened CrawlSpec

  /** The inner loop over one batch (main.py:160-167): a URL in the ledger
      is skipped; any other is scraped, and a record is queued and its URL
      added to the ledger. The table and the checkpoint are not touched, so
      they enter as ghost values of the run. */
  method ScrapeBatch(env: Env, batch: seq<Url>, ledger: set<Url>, pending: seq<ArticleRecord>, ghost journal: Journal,
                     ghost present: bool, ghost lines: seq<Line>, ghost cp: Option<string>)
    returns (ledger': set<Url>, pending': seq<ArticleRecord>)
    modifies journal
    ensures Run(ledger', pending', present, lines, cp, journal.events, false)
         == VisitFrom(env, Run(ledger, pending, present, lines, cp, old(journal.events), false), batch, 0)
  {
    ghost var start := Run(ledger, pending, present, lines, cp, journal.events, false);
    ledger', pending' := ledger, pending;
    var j := 0;
    while j < |batch|
      invariant j <= |batch|
      invariant VisitFrom(env, Run(ledger', pending', present, lines, cp, journal.events, false), batch, j)
             == VisitFrom(env, start, batch, 0)
    {
      var url := batch[j];
      if url !in ledger' {
        var data := env.scrape(url);
        if data.Some? {
          pending' := pending' + [data.value];
          ledger' := ledger' + {url};
          journal.events := journal.events + [Scraped(url, true)];
        } else {
          journal.events := journal.events + [Scraped(url, false)];
        }
      }
      j := j + 1;
    }
  }

  /** One section (main.py:156-177): the batches `urls[i:i+50]`, each
      flushed to the table when the accumulator is not empty, then the
      checkpoint saved with the section's index. */
  method CrawlSection(env: Env, idx: nat, urls: seq<Url>, ledger: set<Url>, checkpoint: CheckpointFile, csv: CsvFile)
    returns (ledger': set<Url>)
    requires csv.Valid() && checkpoint.journal == csv.journal
    modifies checkpoint, csv, csv.journal
    ensures csv.Valid()
    ensures Run(ledger', [], csv.present, csv.lines, checkpoint.content, csv.journal.events, false)
         == Section(env, Run(ledger, [], old(csv.present), old(csv.lines), old(checkpoint.content), old(csv.journal.events), false),
                    idx, urls, BatchSize)
  {
    ghost var journal := csv.journal;
    ghost var start := Run(ledger, [], csv.present, csv.lines, checkpoint.content, journal.events, false);
    ghost var cp := checkpoint.content;
    ledger' := ledger;
    var pending: seq<ArticleRecord> := [];
    var i := 0;
    while i < |urls|
      invariant csv.Valid() && checkpoint.content == cp
      invariant BatchesFrom(env, Run(ledger', [], csv.present, csv.lines, cp, journal.events, false), urls, i, BatchSize)
             == BatchesFrom(env, start, urls, 0, BatchSize)
      decreases |urls| - i
    {
      ghost var before := Run(ledger', [], csv.present, csv.lines, cp, journal.events, false);
      var end := if i + BatchSize < |urls| then i + BatchSize else |urls|;
      ledger', pending := ScrapeBatch(env, urls[i..end], ledger', [], journal, csv.present, csv.lines, cp);
      if pending != [] {
        csv.Append(pending);
        pending := [];
      }
      assert Run(ledger', [], csv.present, csv.lines, cp, journal.events, false)
          == Flush(VisitFrom(env, before, urls[i..BatchEnd(i, BatchSize, |urls|)], 0));
      i := i + BatchSize;
    }
    checkpoint.Save(idx);
  }

  /** The loop over the sections from `idx` on (main.py:149-178). A
      section sitemap that cannot be fetched ends the run: `completed` is
      then false. */
  method CrawlSections(env: Env, sections: seq<Url>, idx: nat, ledger: set<Url>, checkpoint: CheckpointFile, csv: CsvFile)
    returns (ledger': set<Url>, completed: bool)
    requires csv.Valid() && checkpoint.journal == csv.journal
    modifies checkpoint, csv, csv.journal
    ensures csv.Valid()
    ensures Run(ledger', [], csv.present, csv.lines, checkpoint.content, csv.journal.events, !completed)
         == RunFrom(env, Run(ledger, [], old(csv.present), old(csv.lines), old(checkpoint.content), old(csv.journal.events), false),
                 sections, idx, BatchSize)
  {
    ghost var journal := csv.journal;
    ghost var target := RunFrom(env, Run(ledger, [], csv.present, csv.lines, checkpoint.content, journal.events, false),
                                sections, idx, BatchSize);
    var i := idx;
    ledger' := ledger;
    while i < |sections|
      invariant csv.Valid()
      invariant RunFrom(env, Run(ledger', [], csv.present, csv.lines, checkpoint.content, journal.events, false), sections, i, BatchSize)
             == target
      decreases |sections| - i
    {
      journal.events := journal.events + [FetchedSection(i)];
      var articles := env.articles(sections[i]);
      if articles.None? {
        completed := false;
        assert Run(ledger', [], csv.present, csv.lines, checkpoint.content, journal.events, true) == target;
        return;
      }
      ledger' := CrawlSection(env, i, articles.value, ledger', checkpoint, csv);
      i := i + 1;
    }
    completed := true;
    assert Run(ledger', [], csv.present, csv.lines, checkpoint.content, journal.events, false) == target;
  }

  /** `main()`: load the checkpoint, seed the ledger from the table, fetch
      the section index, then crawl the sections from the checkpoint on.
      A failed fetch of the index or of a section ends the run early
      (`completed` is false), as the exception does in the source. The
      journal holds the effects of this one run, so it starts empty. */
  method Crawl(o: Oracles, checkpoint: CheckpointFile, csv: CsvFile) returns (completed: bool)
    requires csv.Valid() && checkpoint.journal == csv.journal && csv.journal.events == []
    modifies checkpoint, csv, csv.journal
    ensures csv.Valid()
    ensures var r := CrawlRun(o, BatchSize, old(checkpoint.content), old(csv.present), old(csv.lines));
      && csv.journal.events == r.log && completed == !r.aborted
      && csv.present == r.present && csv.lines == r.lines && checkpoint.content == r.checkpoint
  {
    var lastIndex := checkpoint.Load();
    var ledger := csv.ReadUrls();
    if o.index.None? {
      completed := false;
      return;
    }
    ledger, completed := CrawlSections(EnvOf(o), o.index.value, lastIndex, ledger, checkpoint, csv);
  }
}
