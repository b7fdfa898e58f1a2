/** What a section scrapes and what it writes (main.py:156-175). The
    per-URL rule of main.py:160-166 is restated on the ledger alone, as
    `NewUrls`: walking the article list in order, a URL in the ledger is
    skipped, any other is scraped, and joins the ledger when the scrape
    gives a record. The lemmas below show that the batches of a section
    scrape exactly those URLs, in that order, and write exactly the records
    those scrapes returned. */
module CrawlCoverage {
  import opened Wrappers
  import opened Checkpoint
  import opened PageExtractor
  import opened OutputSink
  import opened Effects
  import opened CrawlSpec
  import opened CrawlTrace

  type Scraper = Url -> Option<ArticleRecord>

  /** The ledger after one URL has been scraped. */
  function Learn(ledger: set<Url>, scrape: Scraper, url: Url): set<Url> {
    if scrape(url).Some? then ledger + {url} else ledger
  }

  /** The URLs of `urls` that get scraped, in order, starting from `ledger`. */
  function NewUrls(ledger: set<Url>, scrape: Scraper, urls: seq<Url>): seq<Url>
    decreases |urls|
  {
    if urls == [] then []
    else if urls[0] in ledger then NewUrls(ledger, scrape, urls[1..])
    else [urls[0]] + NewUrls(Learn(ledger, scrape, urls[0]), scrape, urls[1..])
  }

  /** The ledger after walking `urls`. */
  function LedgerAfter(ledger: set<Url>, scrape: Scraper, urls: seq<Url>): set<Url>
    decreases |urls|
  {
    if urls == [] then ledger
    else if urls[0] in ledger then LedgerAfter(ledger, scrape, urls[1..])
    else LedgerAfter(Learn(ledger, scrape, urls[0]), scrape, urls[1..])
  }

  /** The records the scrapes of `urls` return, in order. */
  function Found(scrape: Scraper, urls: seq<Url>): seq<ArticleRecord>
    decreases |urls|
  {
    if urls == [] then []
    else (match scrape(urls[0]) case Some(rec) => [rec] case None => []) + Found(scrape, urls[1..])
  }

  /** Every row is the record the scraper returns for the row's URL. */
  ghost predicate RowsScraped(scrape: Scraper, rows: seq<ArticleRecord>) {
    forall k :: 0 <= k < |rows| ==> scrape(rows[k].url) == Some(rows[k])
  }

  /** The URLs scraped are exactly the URLs of the list that are not in the
      ledger when the walk starts: each one scraped is such a URL, and each
      such URL is scraped. */
  lemma {:induction false} NewUrlsExact(ledger: set<Url>, scrape: Scraper, urls: seq<Url>)
    ensures forall u :: u in NewUrls(ledger, scrape, urls) <==> u in urls && u !in ledger
    decreases |urls|
  {
    if urls != [] {
      var h := urls[0];
      assert forall u :: u in urls <==> u == h || u in urls[1..];
      if h in ledger {
        NewUrlsExact(ledger, scrape, urls[1..]);
      } else {
        NewUrlsExact(Learn(ledger, scrape, h), scrape, urls[1..]);
      }
    }
  }

  /** Walking `a + b` is walking `a`, then `b` from the ledger `a` leaves. */
  lemma {:induction false} NewUrlsConcat(ledger: set<Url>, scrape: Scraper, a: seq<Url>, b: seq<Url>)
    ensures NewUrls(ledger, scrape, a + b)
         == NewUrls(ledger, scrape, a) + NewUrls(LedgerAfter(ledger, scrape, a), scrape, b)
    ensures LedgerAfter(ledger, scrape, a + b) == LedgerAfter(LedgerAfter(ledger, scrape, a), scrape, b)
    decreases |a|
  {
    if a == [] {
      assert a + b == b;
    } else {
      assert (a + b)[0] == a[0] && (a + b)[1..] == a[1..] + b;
      if a[0] in ledger {
        NewUrlsConcat(ledger, scrape, a[1..], b);
      } else {
        NewUrlsConcat(Learn(ledger, scrape, a[0]), scrape, a[1..], b);
      }
    }
  }

  lemma {:induction false} FoundConcat(scrape: Scraper, a: seq<Url>, b: seq<Url>)
    ensures Found(scrape, a + b) == Found(scrape, a) + Found(scrape, b)
    decreases |a|
  {
    if a == [] {
      assert a + b == b;
    } else {
      assert (a + b)[0] == a[0] && (a + b)[1..] == a[1..] + b;
      FoundConcat(scrape, a[1..], b);
    }
  }

  /** The records found by a scraper that keeps URLs are its own answers
      for their URLs. */
  lemma {:induction false} FoundScraped(scrape: Scraper, urls: seq<Url>)
    requires KeepsUrl(scrape)
    ensures RowsScraped(scrape, Found(scrape, urls))
    decreases |urls|
  {
    if urls != [] {
      FoundScraped(scrape, urls[1..]);
    }
  }

  lemma RowsScrapedConcat(scrape: Scraper, a: seq<ArticleRecord>, b: seq<ArticleRecord>)
    requires RowsScraped(scrape, a) && RowsScraped(scrape, b)
    ensures RowsScraped(scrape, a + b)
  {
    forall k | 0 <= k < |a + b| ensures scrape((a + b)[k].url) == Some((a + b)[k]) {
      if k >= |a| {
        assert (a + b)[k] == b[k - |a|];
      }
    }
  }

  /** Two walks in a row: if one state records the walk of `a` and the
      next the walk of `b` from where it ended, the last records the walk
      of `a + b`. `A` is the scraped URLs, `L` the ledger, `R` the records. */
  lemma WalkChain(s: Scraper, L0: set<Url>, a: seq<Url>, b: seq<Url>,
                  A0: seq<Url>, A1: seq<Url>, A2: seq<Url>, L1: set<Url>, L2: set<Url>,
                  R0: seq<ArticleRecord>, R1: seq<ArticleRecord>, R2: seq<ArticleRecord>)
    requires A1 == A0 + NewUrls(L0, s, a) && L1 == LedgerAfter(L0, s, a) && R1 == R0 + Found(s, NewUrls(L0, s, a))
    requires A2 == A1 + NewUrls(L1, s, b) && L2 == LedgerAfter(L1, s, b) && R2 == R1 + Found(s, NewUrls(L1, s, b))
    ensures A2 == A0 + NewUrls(L0, s, a + b) && L2 == LedgerAfter(L0, s, a + b)
    ensures R2 == R0 + Found(s, NewUrls(L0, s, a + b))
  {
    NewUrlsConcat(L0, s, a, b);
    AppendChain(A0, NewUrls(L0, s, a), NewUrls(L1, s, b), A1, A2);
    FoundConcat(s, NewUrls(L0, s, a), NewUrls(L1, s, b));
    AppendChain(R0, Found(s, NewUrls(L0, s, a)), Found(s, NewUrls(L1, s, b)), R1, R2);
  }

  lemma AppendChain<T>(x0: seq<T>, m: seq<T>, n: seq<T>, x1: seq<T>, x2: seq<T>)
    requires x1 == x0 + m && x2 == x1 + n
    ensures x2 == x0 + (m + n)
  {
  }

  /** One URL (main.py:161-166): the walk of `[url]`. */
  lemma VisitCovers(env: Env, r: Run, url: Url)
    ensures var u := Visit(env, r, url);
      var n := NewUrls(r.ledger, env.scrape, [url]);
      && Attempts(u.log) == Attempts(r.log) + n
      && u.ledger == LedgerAfter(r.ledger, env.scrape, [url])
      && u.pending == r.pending + Found(env.scrape, n)
      && AppendedRows(u.log) == AppendedRows(r.log)
  {
    var s := env.scrape;
    assert [url][0] == url && [url][1..] == [];
    if url in r.ledger {
      assert NewUrls(r.ledger, s, [url]) == [] && LedgerAfter(r.ledger, s, [url]) == r.ledger;
    } else {
      assert NewUrls(r.ledger, s, [url]) == [url] && LedgerAfter(r.ledger, s, [url]) == Learn(r.ledger, s, url);
      assert Found(s, [url]) == if s(url).Some? then [s(url).value] else [];
      LogStep(r.log, Scraped(url, s(url).Some?));
    }
  }

  /** The scrape loop over `batch[j..]` (main.py:160-167) scrapes the URLs
      `NewUrls` names, in order, and queues the records they return. */
  lemma {:induction false} VisitFromCovers(env: Env, r: Run, batch: seq<Url>, j: nat)
    requires j <= |batch|
    ensures var v := VisitFrom(env, r, batch, j);
      var n := NewUrls(r.ledger, env.scrape, batch[j..]);
      && Attempts(v.log) == Attempts(r.log) + n
      && v.ledger == LedgerAfter(r.ledger, env.scrape, batch[j..])
      && v.pending == r.pending + Found(env.scrape, n)
      && AppendedRows(v.log) == AppendedRows(r.log)
    decreases |batch| - j
  {
    if j < |batch| {
      var url := batch[j];
      var u := Visit(env, r, url);
      var v := VisitFrom(env, u, batch, j + 1);
      assert v == VisitFrom(env, r, batch, j);
      assert batch[j..] == [url] + batch[j + 1..];
      VisitCovers(env, r, url);
      VisitFromCovers(env, u, batch, j + 1);
      WalkChain(env.scrape, r.ledger, [url], batch[j + 1..],
                Attempts(r.log), Attempts(u.log), Attempts(v.log), u.ledger, v.ledger,
                r.pending, u.pending, v.pending);
    } else {
      assert batch[j..] == [];
    }
  }

  /** One batch and its flush: the batch's new URLs are scraped and the
      records they return are appended, with nothing left queued. */
  lemma BatchCovers(env: Env, r: Run, urls: seq<Url>, i: nat, size: nat) returns (w: Run)
    requires size > 0 && i < |urls| && r.pending == []
    ensures w == Flush(VisitFrom(env, r, urls[i..BatchEnd(i, size, |urls|)], 0))
    ensures var n := NewUrls(r.ledger, env.scrape, urls[i..BatchEnd(i, size, |urls|)]);
      && Attempts(w.log) == Attempts(r.log) + n
      && w.ledger == LedgerAfter(r.ledger, env.scrape, urls[i..BatchEnd(i, size, |urls|)])
      && AppendedRows(w.log) == AppendedRows(r.log) + Found(env.scrape, n)
      && w.pending == []
  {
    var batch := urls[i..BatchEnd(i, size, |urls|)];
    var v := VisitFrom(env, r, batch, 0);
    assert batch[0..] == batch;
    VisitFromCovers(env, r, batch, 0);
    FlushTrace(v);
    w := Flush(v);
  }

  /** The batches `urls[i:i+size]`, `urls[i+size:i+2*size]`, ... together
      scrape exactly the new URLs of `urls[i..]`, in order, and append the
      records those scrapes returned. */
  lemma {:induction false} BatchesCover(env: Env, r: Run, urls: seq<Url>, i: nat, size: nat) returns (b: Run)
    requires size > 0 && i <= |urls| && r.pending == []
    ensures b == BatchesFrom(env, r, urls, i, size)
    ensures var n := NewUrls(r.ledger, env.scrape, urls[i..]);
      && Attempts(b.log) == Attempts(r.log) + n
      && b.ledger == LedgerAfter(r.ledger, env.scrape, urls[i..])
      && AppendedRows(b.log) == AppendedRows(r.log) + Found(env.scrape, n)
      && b.pending == []
    decreases |urls| - i
  {
    if i == |urls| {
      b := r;
      assert urls[i..] == [];
      assert b == BatchesFrom(env, r, urls, i, size);
    } else {
      var end := BatchEnd(i, size, |urls|);
      var w := BatchCovers(env, r, urls, i, size);
      var s := env.scrape;
      if end == |urls| {
        b := w;
        assert urls[i..] == urls[i..end];
        assert BatchesFrom(env, w, urls, i + size, size) == w;
        assert b == BatchesFrom(env, r, urls, i, size);
      } else {
        b := BatchesCover(env, w, urls, i + size, size);
        assert b == BatchesFrom(env, r, urls, i, size);
        assert urls[i..] == urls[i..end] + urls[end..];
        WalkChain(s, r.ledger, urls[i..end], urls[end..],
                  Attempts(r.log), Attempts(w.log), Attempts(b.log), w.ledger, b.ledger,
                  AppendedRows(r.log), AppendedRows(w.log), AppendedRows(b.log));
      }
    }
  }

  /** A section whose sitemap lists `urls` (main.py:156-177) scrapes exactly
      the URLs `NewUrls` names, in list order, and appends exactly the
      records those scrapes returned, in that order. */
  lemma SectionCovers(env: Env, r: Run, idx: nat, urls: seq<Url>, size: nat)
    requires size > 0
    ensures var s := Section(env, r, idx, urls, size);
      var n := NewUrls(r.ledger, env.scrape, urls);
      && Attempts(s.log) == Attempts(r.log) + n
      && s.ledger == LedgerAfter(r.ledger, env.scrape, urls)
      && AppendedRows(s.log) == AppendedRows(r.log) + Found(env.scrape, n)
  {
    assert urls[0..] == urls;
    var done := BatchesCover(env, r.(pending := []), urls, 0, size);
    LogStep(done.log, Saved(idx));
  }

  /** The remaining sections append only records that the scraper returned
      for the rows' URLs. */
  lemma {:induction false} RunFromRowsScraped(env: Env, r: Run, sections: seq<Url>, idx: nat, size: nat)
    requires size > 0 && KeepsUrl(env.scrape) && RowsScraped(env.scrape, AppendedRows(r.log))
    ensures RowsScraped(env.scrape, AppendedRows(RunFrom(env, r, sections, idx, size).log))
    decreases |sections| - idx
  {
    if idx < |sections| {
      var r1 := r.(log := r.log + [FetchedSection(idx)]);
      LogStep(r.log, FetchedSection(idx));
      match env.articles(sections[idx])
      case None =>
      case Some(urls) =>
        var s := Section(env, r1, idx, urls, size);
        SectionCovers(env, r1, idx, urls, size);
        FoundScraped(env.scrape, NewUrls(r1.ledger, env.scrape, urls));
        RowsScrapedConcat(env.scrape, AppendedRows(r1.log), Found(env.scrape, NewUrls(r1.ledger, env.scrape, urls)));
        RunFromRowsScraped(env, s, sections, idx + 1, size);
    }
  }

  /** Every row a run appends is the record `scrape_article` returned for
      the row's URL (main.py:163-175): the table holds what was scraped,
      unaltered. */
  lemma CrawlRowsAreScrapes(o: Oracles, size: nat, checkpoint: Option<string>, present: bool, lines: seq<Line>)
    requires size > 0
    ensures var rows := AppendedRows(CrawlRun(o, size, checkpoint, present, lines).log);
      forall k :: 0 <= k < |rows| ==> Scrape(rows[k].url, o.page(rows[k].url), o.nlp) == Some(rows[k])
  {
    var r0 := Initial(checkpoint, present, lines);
    var e := EnvOf(o);
    assert AppendedRows(r0.log) == [];
    if o.index.Some? {
      RunFromRowsScraped(e, r0, o.index.value, LoadCheckpoint(checkpoint), size);
    }
    var rows := AppendedRows(CrawlRun(o, size, checkpoint, present, lines).log);
    forall k | 0 <= k < |rows| ensures Scrape(rows[k].url, o.page(rows[k].url), o.nlp) == Some(rows[k]) {
      EnvOfScrape(o, rows[k].url);
    }
  }

  /** A section listing `[a, b, c]` where `a` is already in the ledger and
      `b` and `c` scrape successfully: exactly `b` and `c` are scraped, in
      that order, and exactly their two records are appended. */
  lemma SectionExample(env: Env, r: Run, idx: nat, a: Url, b: Url, c: Url, size: nat)
    requires size > 0 && a in r.ledger && b !in r.ledger && c !in r.ledger && b != c
    requires env.scrape(b).Some? && env.scrape(c).Some?
    ensures var s := Section(env, r, idx, [a, b, c], size);
      && Attempts(s.log) == Attempts(r.log) + [b, c]
      && AppendedRows(s.log) == AppendedRows(r.log) + [env.scrape(b).value, env.scrape(c).value]
  {
    var sc := env.scrape;
    SectionCovers(env, r, idx, [a, b, c], size);
    assert [a, b, c][1..] == [b, c] && [b, c][1..] == [c] && [c][1..] == [];
    var l1 := r.ledger + {b};
    assert NewUrls(l1, sc, [c]) == [c];
    assert NewUrls(r.ledger, sc, [b, c]) == [b, c];
    assert NewUrls(r.ledger, sc, [a, b, c]) == [b, c];
    assert Found(sc, [c]) == [sc(c).value];
    assert Found(sc, [b, c]) == [sc(b).value, sc(c).value];
  }
}
