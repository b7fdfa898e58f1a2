/** What the crawl driver guarantees, proved about the state machine of
    CrawlSpec: URL-level deduplication against the table and within the
    run, the shape of the table, the batch and flush discipline, and the
    resume behaviour of the checkpoint. */
module CrawlProperties {
  import opened Wrappers
  import opened Checkpoint
  import opened PageExtractor
  import opened OutputSink
  import opened Effects
  import opened CrawlSpec
  import opened CrawlTrace
  import opened CrawlCoverage

  lemma RowsConcat(a: seq<ArticleRecord>, b: seq<ArticleRecord>)
    ensures Rows(a + b) == Rows(a) + Rows(b)
  {
  }

  lemma AllDistinctSnoc(s: seq<Url>, u: Url)
    requires AllDistinct(s) && u !in s
    ensures AllDistinct(s + [u])
  {
  }

  /** Every URL scraped was outside the ledger at that moment: neither in
      the seed nor scraped successfully before. Stated event by event. */
  ghost predicate Fresh(seed: set<Url>, log: seq<Event>) {
    log == [] ||
    (Fresh(seed, Init(log)) &&
     (Last(log).Scraped? ==> Last(log).url !in seed && Last(log).url !in Successes(Init(log))))
  }

  /** `Fresh` stated for every position of the log. */
  lemma {:induction false} FreshAt(seed: set<Url>, log: seq<Event>)
    requires Fresh(seed, log)
    ensures forall i :: 0 <= i < |log| && log[i].Scraped? ==>
      log[i].url !in seed && log[i].url !in Successes(log[..i])
  {
    if log != [] {
      FreshAt(seed, Init(log));
      forall i | 0 <= i < |log| && log[i].Scraped?
        ensures log[i].url !in seed && log[i].url !in Successes(log[..i])
      {
        if i < |log| - 1 {
          assert log[..i] == Init(log)[..i] && log[i] == Init(log)[i];
        } else {
          assert log[..i] == Init(log);
        }
      }
    }
  }

  /** The ledger half of the invariant: the ledger is the seed plus the
      successful scrapes, which are the URLs of the rows appended or still
      pending, and no URL was scraped while in the ledger. */
  ghost predicate LedgerInv(seed: set<Url>, r: Run) {
    && r.ledger == seed + ToSet(Successes(r.log))
    && Urls(AppendedRows(r.log) + r.pending) == Successes(r.log)
    && Fresh(seed, r.log)
  }

  /** A log that never scraped a URL in the ledger has distinct successes,
      none of them in the seed. */
  lemma {:induction false} FreshSuccesses(seed: set<Url>, log: seq<Event>)
    requires Fresh(seed, log)
    ensures AllDistinct(Successes(log))
    ensures forall u :: u in Successes(log) ==> u !in seed
  {
    if log != [] {
      var e := Last(log);
      FreshSuccesses(seed, Init(log));
      assert log == Init(log) + [e];
      LogStep(Init(log), e);
      if e.Scraped? && e.ok {
        AllDistinctSnoc(Successes(Init(log)), e.url);
      }
    }
  }

  /** The table half of the invariant: the table is the one the run started
      from plus the appended rows, under a header this run wrote only if it
      created the file. */
  ghost predicate TableInv(present0: bool, lines0: seq<Line>, r: Run) {
    var added := AppendedRows(r.log);
    && r.present == (present0 || added != [])
    && r.lines == (if present0 then lines0 else if added == [] then [] else [Header]) + Rows(added)
    && HeaderCount(r.log) == (if present0 || added == [] then 0 else 1)
  }

  lemma FreshStep(seed: set<Url>, log: seq<Event>, e: Event)
    requires Fresh(seed, log)
    requires e.Scraped? ==> e.url !in seed && e.url !in Successes(log)
    ensures Fresh(seed, log + [e])
  {
    assert Init(log + [e]) == log && Last(log + [e]) == e;
  }

  // ----- The ledger half, step by step -----

  /** Fetching a section or saving the checkpoint leaves the ledger alone. */
  lemma LedgerQuiet(seed: set<Url>, r: Run, e: Event)
    requires LedgerInv(seed, r) && (e.FetchedSection? || e.Saved?)
    ensures LedgerInv(seed, r.(log := r.log + [e]))
  {
    LogStep(r.log, e);
    FreshStep(seed, r.log, e);
  }

  /** A successful scrape of a URL outside the ledger keeps the ledger half. */
  lemma AcceptLedger(seed: set<Url>, r: Run, url: Url, rec: ArticleRecord)
    requires LedgerInv(seed, r) && url !in r.ledger && rec.url == url
    ensures LedgerInv(seed, r.(ledger := r.ledger + {url}, pending := r.pending + [rec],
                               log := r.log + [Scraped(url, true)]))
  {
    var e := Scraped(url, true);
    var r' := r.(ledger := r.ledger + {url}, pending := r.pending + [rec], log := r.log + [e]);
    var s := Successes(r.log);
    LogStep(r.log, e);
    FreshStep(seed, r.log, e);
    assert Successes(r'.log) == s + [url];
    assert AppendedRows(r'.log) + r'.pending == (AppendedRows(r.log) + r.pending) + [rec];
    assert ToSet(s + [url]) == ToSet(s) + {url};
    assert r'.ledger == seed + ToSet(Successes(r'.log));
    assert Urls(AppendedRows(r'.log) + r'.pending) == Successes(r'.log);
  }

  /** A failed scrape of a URL outside the ledger keeps the ledger half. */
  lemma RejectLedger(seed: set<Url>, r: Run, url: Url)
    requires LedgerInv(seed, r) && url !in r.ledger
    ensures LedgerInv(seed, r.(log := r.log + [Scraped(url, false)]))
  {
    LogStep(r.log, Scraped(url, false));
    FreshStep(seed, r.log, Scraped(url, false));
  }

  lemma VisitLedger(env: Env, seed: set<Url>, r: Run, url: Url)
    requires KeepsUrl(env.scrape) && LedgerInv(seed, r) && url !in r.ledger
    ensures LedgerInv(seed, Visit(env, r, url))
  {
    match env.scrape(url)
    case None => RejectLedger(seed, r, url);
    case Some(rec) => AcceptLedger(seed, r, url, rec);
  }

  lemma {:induction false} VisitFromLedger(env: Env, seed: set<Url>, r: Run, batch: seq<Url>, j: nat)
    requires KeepsUrl(env.scrape) && LedgerInv(seed, r)
    ensures LedgerInv(seed, VisitFrom(env, r, batch, j))
    decreases |batch| - j
  {
    if j < |batch| {
      if batch[j] !in r.ledger {
        VisitLedger(env, seed, r, batch[j]);
      }
      VisitFromLedger(env, seed, Visit(env, r, batch[j]), batch, j + 1);
    }
  }

  lemma FlushLedger(seed: set<Url>, r: Run)
    requires LedgerInv(seed, r) && r.pending != []
    ensures LedgerInv(seed, Flush(r))
  {
    var e := Appended(r.pending, !r.present);
    var f := Flush(r);
    LogStep(r.log, e);
    FreshStep(seed, r.log, e);
    assert f.log == r.log + [e];
    assert AppendedRows(f.log) + f.pending == AppendedRows(r.log) + r.pending;
  }

  /** One batch and its flush keep the ledger half; `w` is the run after them. */
  lemma BatchLedger(env: Env, seed: set<Url>, r: Run, urls: seq<Url>, i: nat, size: nat) returns (w: Run)
    requires KeepsUrl(env.scrape) && size > 0 && i < |urls| && LedgerInv(seed, r)
    ensures w == Flush(VisitFrom(env, r, urls[i..BatchEnd(i, size, |urls|)], 0)) && LedgerInv(seed, w)
  {
    var v := VisitFrom(env, r, urls[i..BatchEnd(i, size, |urls|)], 0);
    VisitFromLedger(env, seed, r, urls[i..BatchEnd(i, size, |urls|)], 0);
    if v.pending != [] {
      FlushLedger(seed, v);
    }
    w := Flush(v);
  }

  /** All batches of a section keep the ledger half; `b` is the run after them. */
  lemma {:induction false} BatchesLedger(env: Env, seed: set<Url>, r: Run, urls: seq<Url>, i: nat, size: nat)
    returns (b: Run)
    requires KeepsUrl(env.scrape) && size > 0 && LedgerInv(seed, r)
    ensures b == BatchesFrom(env, r, urls, i, size) && LedgerInv(seed, b)
    decreases |urls| - i
  {
    if i < |urls| {
      var w := BatchLedger(env, seed, r, urls, i, size);
      b := BatchesLedger(env, seed, w, urls, i + size, size);
      assert BatchesFrom(env, r, urls, i, size) == BatchesFrom(env, w, urls, i + size, size);
      assert b == BatchesFrom(env, r, urls, i, size);
    } else {
      b := r;
      assert b == BatchesFrom(env, r, urls, i, size);
    }
  }

  lemma {:induction false} RunFromLedger(env: Env, seed: set<Url>, r: Run, sections: seq<Url>, idx: nat, size: nat)
    requires KeepsUrl(env.scrape) && size > 0 && LedgerInv(seed, r) && r.pending == []
    ensures LedgerInv(seed, RunFrom(env, r, sections, idx, size))
    ensures RunFrom(env, r, sections, idx, size).pending == []
    decreases |sections| - idx
  {
    if idx < |sections| {
      var r1 := r.(log := r.log + [FetchedSection(idx)]);
      LedgerQuiet(seed, r, FetchedSection(idx));
      match env.articles(sections[idx])
      case None =>
      case Some(urls) =>
        assert r1.(pending := []) == r1;
        var done := BatchesLedger(env, seed, r1, urls, 0, size);
        SectionTrace(env, r1, idx, urls, size);
        LedgerQuiet(seed, BatchesFrom(env, r1, urls, 0, size), Saved(idx));
        RunFromLedger(env, seed, Section(env, r1, idx, urls, size), sections, idx + 1, size);
    }
  }

  // ----- The table half, step by step -----

  /** Events other than appends leave the table half alone. */
  lemma TableKeeps(present0: bool, lines0: seq<Line>, r: Run, r': Run)
    requires TableInv(present0, lines0, r)
    requires AppendedRows(r'.log) == AppendedRows(r.log) && HeaderCount(r'.log) == HeaderCount(r.log)
    requires r'.present == r.present && r'.lines == r.lines
    ensures TableInv(present0, lines0, r')
  {
  }

  lemma FlushTable(present0: bool, lines0: seq<Line>, r: Run)
    requires TableInv(present0, lines0, r) && r.pending != []
    ensures TableInv(present0, lines0, Flush(r))
  {
    var e := Appended(r.pending, !r.present);
    LogStep(r.log, e);
    RowsConcat(AppendedRows(r.log), r.pending);
    var f := Flush(r);
    var added := AppendedRows(f.log);
    assert f.log == r.log + [e];
    assert added == AppendedRows(r.log) + r.pending;
    assert f.present == (present0 || added != []);
    assert f.lines == (if present0 then lines0 else if added == [] then [] else [Header]) + Rows(added);
    assert HeaderCount(f.log) == (if present0 || added == [] then 0 else 1);
  }

  /** One batch and its flush keep the table half. */
  lemma BatchTable(env: Env, present0: bool, lines0: seq<Line>, r: Run, urls: seq<Url>, i: nat, size: nat)
    requires size > 0 && i < |urls| && TableInv(present0, lines0, r)
    ensures TableInv(present0, lines0, Flush(VisitFrom(env, r, urls[i..BatchEnd(i, size, |urls|)], 0)))
  {
    var v := VisitFrom(env, r, urls[i..BatchEnd(i, size, |urls|)], 0);
    VisitFromKeeps(env, r, urls[i..BatchEnd(i, size, |urls|)], 0);
    ViewsIgnoreScrapes(r.log, v.log);
    TableKeeps(present0, lines0, r, v);
    if v.pending != [] {
      FlushTable(present0, lines0, v);
    }
  }

  lemma {:induction false} BatchesTable(env: Env, present0: bool, lines0: seq<Line>, r: Run, urls: seq<Url>, i: nat, size: nat)
    requires size > 0 && TableInv(present0, lines0, r)
    ensures TableInv(present0, lines0, BatchesFrom(env, r, urls, i, size))
    decreases |urls| - i
  {
    if i < |urls| {
      var w := Flush(VisitFrom(env, r, urls[i..BatchEnd(i, size, |urls|)], 0));
      BatchTable(env, present0, lines0, r, urls, i, size);
      assert BatchesFrom(env, r, urls, i, size) == BatchesFrom(env, w, urls, i + size, size);
      BatchesTable(env, present0, lines0, w, urls, i + size, size);
    }
  }

  lemma {:induction false} RunFromTable(env: Env, present0: bool, lines0: seq<Line>, r: Run,
                                        sections: seq<Url>, idx: nat, size: nat)
    requires size > 0 && TableInv(present0, lines0, r)
    ensures TableInv(present0, lines0, RunFrom(env, r, sections, idx, size))
    decreases |sections| - idx
  {
    if idx < |sections| {
      var r1 := r.(log := r.log + [FetchedSection(idx)]);
      LogStep(r.log, FetchedSection(idx));
      TableKeeps(present0, lines0, r, r1);
      match env.articles(sections[idx])
      case None =>
        TableKeeps(present0, lines0, r1, r1.(aborted := true));
      case Some(urls) =>
        var done := BatchesFrom(env, r1.(pending := []), urls, 0, size);
        TableKeeps(present0, lines0, r1, r1.(pending := []));
        BatchesTable(env, present0, lines0, r1.(pending := []), urls, 0, size);
        LogStep(done.log, Saved(idx));
        var s := Section(env, r1, idx, urls, size);
        TableKeeps(present0, lines0, done, s);
        RunFromTable(env, present0, lines0, s, sections, idx + 1, size);
    }
  }

  // ----- Whole runs -----

  /** The invariant holds at the end of every run that starts from a table
      this program wrote. */
  lemma CrawlInv(o: Oracles, size: nat, checkpoint: Option<string>, present: bool, lines: seq<Line>)
    requires size > 0 && WellFormed(present, lines)
    ensures var r := CrawlRun(o, size, checkpoint, present, lines);
      && LedgerInv(ExistingUrls(present, lines), r)
      && TableInv(present, lines, r)
      && r.pending == []
  {
    var seed := ExistingUrls(present, lines);
    var r0 := Initial(checkpoint, present, lines);
    assert Urls([] + []) == [];
    assert ToSet([]) == {};
    assert LedgerInv(seed, r0);
    assert TableInv(present, lines, r0);
    if o.index.Some? {
      RunFromLedger(EnvOf(o), seed, r0, o.index.value, LoadCheckpoint(checkpoint), size);
      RunFromTable(EnvOf(o), present, lines, r0, o.index.value, LoadCheckpoint(checkpoint), size);
    } else {
      TableKeeps(present, lines, r0, r0.(aborted := true));
    }
  }

  /** Deduplication (main.py:140-144, 160-175): the rows a run appends have
      pairwise-distinct URLs, none of them already in the table; they are
      exactly the successful scrapes, in order, each one the record
      `scrape_article` returned for its URL; nothing is left unflushed;
      the table keeps one header, written only if this run created the file. */
  lemma CrawlAppendsFreshRows(o: Oracles, size: nat, checkpoint: Option<string>, present: bool, lines: seq<Line>)
    requires size > 0 && WellFormed(present, lines)
    ensures var r := CrawlRun(o, size, checkpoint, present, lines);
      var seed := ExistingUrls(present, lines);
      var added := AppendedRows(r.log);
      && r.pending == []
      && Urls(added) == Successes(r.log)
      && AllDistinct(Urls(added))
      && (forall k :: 0 <= k < |added| ==> added[k].url !in seed)
      && r.ledger == seed + ToSet(Urls(added))
      && r.present == (present || added != [])
      && r.lines == (if present then lines else if added == [] then [] else [Header]) + Rows(added)
      && HeaderCount(r.log) == (if !present && added != [] then 1 else 0)
      && forall k :: 0 <= k < |added| ==> Scrape(added[k].url, o.page(added[k].url), o.nlp) == Some(added[k])
  {
    CrawlInv(o, size, checkpoint, present, lines);
    CrawlRowsAreScrapes(o, size, checkpoint, present, lines);
    var r := CrawlRun(o, size, checkpoint, present, lines);
    var added := AppendedRows(r.log);
    FreshSuccesses(ExistingUrls(present, lines), r.log);
    assert added + r.pending == added;
    forall k | 0 <= k < |added| ensures added[k].url !in ExistingUrls(present, lines) {
      assert Urls(added)[k] in Successes(r.log);
    }
  }

  /** The table a run leaves behind is still one that this program writes:
      one header on top of data rows. */
  lemma CrawlKeepsTableWellFormed(o: Oracles, size: nat, checkpoint: Option<string>, present: bool, lines: seq<Line>)
    requires size > 0 && WellFormed(present, lines)
    ensures var r := CrawlRun(o, size, checkpoint, present, lines);
      WellFormed(r.present, r.lines)
  {
    CrawlInv(o, size, checkpoint, present, lines);
    var r := CrawlRun(o, size, checkpoint, present, lines);
    var added := AppendedRows(r.log);
    if present || added != [] {
      var base := if present then lines else [Header];
      assert WellFormed(true, base);
      assert r.lines == AfterAppend(true, base, added);
      AppendKeepsWellFormed(true, base, added);
    }
  }

  /** A URL is never scraped while it is in the ledger: not when it was in
      the table at start, and not after a successful scrape of it in this
      run. A failed scrape leaves it out of the ledger (main.py:160-166). */
  lemma CrawlNeverRescrapes(o: Oracles, size: nat, checkpoint: Option<string>, present: bool, lines: seq<Line>)
    requires size > 0 && WellFormed(present, lines)
    ensures var r := CrawlRun(o, size, checkpoint, present, lines);
      var seed := ExistingUrls(present, lines);
      forall i :: 0 <= i < |r.log| && r.log[i].Scraped? ==>
        r.log[i].url !in seed && r.log[i].url !in Successes(r.log[..i])
  {
    CrawlInv(o, size, checkpoint, present, lines);
    var r := CrawlRun(o, size, checkpoint, present, lines);
    FreshAt(ExistingUrls(present, lines), r.log);
  }

  /** Appending rows whose URLs are distinct and new keeps the table's row
      URLs distinct. */
  lemma AppendKeepsRowUrlsDistinct(base: seq<Line>, added: seq<ArticleRecord>)
    requires RowUrlsDistinct(base) && AllDistinct(Urls(added))
    requires forall k :: 0 <= k < |added| ==> added[k].url !in ExistingUrls(true, base)
    ensures RowUrlsDistinct(base + Rows(added))
  {
    var t := base + Rows(added);
    forall i, j | 0 <= i < j < |t| && t[i].Row? && t[j].Row?
      ensures t[i].record.url != t[j].record.url
    {
      if j < |base| {
        assert t[i] == base[i] && t[j] == base[j];
      } else if i < |base| {
        assert t[i] == base[i] && base[i] in base;
        assert t[j].record == added[j - |base|];
      } else {
        assert t[i].record == added[i - |base|] && t[j].record == added[j - |base|];
        assert Urls(added)[i - |base|] != Urls(added)[j - |base|];
      }
    }
  }

  /** Running again against the same table adds no duplicate rows: if the
      table's rows had distinct URLs before the run, they still do. */
  lemma CrawlKeepsRowUrlsDistinct(o: Oracles, size: nat, checkpoint: Option<string>, present: bool, lines: seq<Line>)
    requires size > 0 && WellFormed(present, lines) && RowUrlsDistinct(lines)
    ensures RowUrlsDistinct(CrawlRun(o, size, checkpoint, present, lines).lines)
  {
    CrawlAppendsFreshRows(o, size, checkpoint, present, lines);
    var r := CrawlRun(o, size, checkpoint, present, lines);
    var added := AppendedRows(r.log);
    if present {
      AppendKeepsRowUrlsDistinct(lines, added);
    } else if added != [] {
      AppendKeepsRowUrlsDistinct([Header], added);
    }
  }

  /** In a schedule that saved at least one section, the checkpoint file
      names the last section saved. */
  lemma ScheduledLastSave(env: Env, sections: seq<Url>, start: nat, cp0: Option<string>, f: Run)
    requires Scheduled(env, sections, start, cp0, f) && Saves(f.log) != []
    ensures f.checkpoint == Some(SavedText(Saves(f.log)[|Saves(f.log)| - 1]))
  {
    var k := Completed(env, sections, start);
    assert Saves(f.log) == Range(start, start + k);
  }

  /** A schedule that starts inside the section index fetches its start
      section first. */
  lemma ScheduledFirstFetch(env: Env, sections: seq<Url>, start: nat, cp0: Option<string>, f: Run)
    requires Scheduled(env, sections, start, cp0, f) && start < |sections|
    ensures Fetches(f.log) != [] && Fetches(f.log)[0] == start
  {
    var k := Completed(env, sections, start);
    var stopped := start + k < |sections|;
    assert Fetches(f.log) == Range(start, start + k + (if stopped then 1 else 0));
  }

  /** After a run that saved the checkpoint, the file names the last
      section saved. */
  lemma CheckpointIsLastSave(o: Oracles, size: nat, checkpoint: Option<string>, present: bool, lines: seq<Line>, r: Run)
    requires size > 0 && r == CrawlRun(o, size, checkpoint, present, lines)
    ensures Saves(r.log) != [] ==> r.checkpoint == Some(SavedText(Saves(r.log)[|Saves(r.log)| - 1]))
  {
    CrawlSchedule(o, size, checkpoint, present, lines);
    if o.index.Some? {
      if Saves(r.log) != [] {
        ScheduledLastSave(EnvOf(o), o.index.value, LoadCheckpoint(checkpoint), checkpoint, r);
      }
    } else {
      assert r.log == [];
    }
  }

  /** A run whose section index is long enough fetches first the section
      the checkpoint names. */
  lemma FirstFetchIsCheckpoint(o: Oracles, size: nat, checkpoint: Option<string>, present: bool, lines: seq<Line>, r: Run)
    requires size > 0 && r == CrawlRun(o, size, checkpoint, present, lines)
    requires o.index.Some? && LoadCheckpoint(checkpoint) < |o.index.value|
    ensures Fetches(r.log) != [] && Fetches(r.log)[0] == LoadCheckpoint(checkpoint)
  {
    CrawlSchedule(o, size, checkpoint, present, lines);
    ScheduledFirstFetch(EnvOf(o), o.index.value, LoadCheckpoint(checkpoint), checkpoint, r);
  }

  /** The resume quirk (main.py:137, 149, 177): the checkpoint names the
      last section completed, and the next run starts AT that index, so
      the first section it fetches is that one again. */
  lemma ResumeRefetchesLastSection(o1: Oracles, o2: Oracles, size: nat, checkpoint: Option<string>,
                                   present: bool, lines: seq<Line>, r1: Run)
    requires size > 0 && o2.index.Some? && r1 == CrawlRun(o1, size, checkpoint, present, lines)
    requires Saves(r1.log) != [] && Saves(r1.log)[|Saves(r1.log)| - 1] < |o2.index.value|
    ensures var r2 := CrawlRun(o2, size, r1.checkpoint, r1.present, r1.lines);
        && Fetches(r2.log) != []
        && Fetches(r2.log)[0] == Saves(r1.log)[|Saves(r1.log)| - 1]
  {
    var last := Saves(r1.log)[|Saves(r1.log)| - 1];
    CheckpointIsLastSave(o1, size, checkpoint, present, lines, r1);
    LoadAfterSave(last);
    FirstFetchIsCheckpoint(o2, size, r1.checkpoint, r1.present, r1.lines,
                           CrawlRun(o2, size, r1.checkpoint, r1.present, r1.lines));
  }

  /** A run never scrapes the URL of a row already in its table. */
  lemma CrawlSkipsTableRows(o: Oracles, size: nat, checkpoint: Option<string>, present: bool, lines: seq<Line>,
                            rows: seq<ArticleRecord>)
    requires size > 0 && WellFormed(present, lines)
    requires forall k :: 0 <= k < |rows| ==> rows[k].url in ExistingUrls(present, lines)
    ensures var r := CrawlRun(o, size, checkpoint, present, lines);
      forall i, k :: 0 <= i < |r.log| && r.log[i].Scraped? && 0 <= k < |rows| ==> r.log[i].url != rows[k].url
  {
    CrawlNeverRescrapes(o, size, checkpoint, present, lines);
  }

  /** The rows a run appends are in the table it leaves behind. */
  lemma AppendedRowsInTable(o: Oracles, size: nat, checkpoint: Option<string>, present: bool, lines: seq<Line>)
    requires size > 0 && WellFormed(present, lines)
    ensures var r := CrawlRun(o, size, checkpoint, present, lines);
      forall k :: 0 <= k < |AppendedRows(r.log)| ==> AppendedRows(r.log)[k].url in ExistingUrls(r.present, r.lines)
  {
    CrawlAppendsFreshRows(o, size, checkpoint, present, lines);
    var r := CrawlRun(o, size, checkpoint, present, lines);
    var added := AppendedRows(r.log);
    var base := if present then lines else if added == [] then [] else [Header];
    RowsInTable(base, added);
  }

  lemma RowsInTable(base: seq<Line>, added: seq<ArticleRecord>)
    ensures forall k :: 0 <= k < |added| ==> added[k].url in ExistingUrls(true, base + Rows(added))
  {
    var t := base + Rows(added);
    forall k | 0 <= k < |added| ensures added[k].url in ExistingUrls(true, t) {
      assert t[|base| + k] == Row(added[k]) && t[|base| + k] in t;
    }
  }

  /** The articles of the section fetched again are not scraped again: no
      URL of a row the first run appended is scraped by the second run,
      since those rows seed its ledger. */
  lemma ResumeSkipsAppendedRows(o1: Oracles, o2: Oracles, size: nat, checkpoint: Option<string>,
                                present: bool, lines: seq<Line>, r1: Run)
    requires size > 0 && WellFormed(present, lines) && r1 == CrawlRun(o1, size, checkpoint, present, lines)
    ensures var r2 := CrawlRun(o2, size, r1.checkpoint, r1.present, r1.lines);
      forall i, k :: 0 <= i < |r2.log| && r2.log[i].Scraped? && 0 <= k < |AppendedRows(r1.log)| ==>
        r2.log[i].url != AppendedRows(r1.log)[k].url
  {
    AppendedRowsInTable(o1, size, checkpoint, present, lines);
    CrawlKeepsTableWellFormed(o1, size, checkpoint, present, lines);
    CrawlSkipsTableRows(o2, size, r1.checkpoint, r1.present, r1.lines, AppendedRows(r1.log));
  }
}
