/** The schedule of a crawl run, read off its event log: which section
    sitemaps are fetched, in which order, what is saved to the checkpoint
    file and when, and how many appends each section makes. */
module CrawlTrace {
  import opened Wrappers
  import opened Checkpoint
  import opened PageExtractor
  import opened OutputSink
  import opened Effects
  import opened CrawlSpec

  function Sum(s: seq<nat>): nat {
    if s == [] then 0 else s[0] + Sum(s[1..])
  }

  /** `ChunkSizes(n, size)` are the lengths of the slices
      `urls[i:i+size]` for `i in range(0, n, size)`: they add up to n, none
      is empty or longer than `size`, and there are ⌈n / size⌉ of them. */
  lemma {:induction false} ChunkSizesSpec(n: nat, size: nat)
    requires size > 0
    ensures var c := ChunkSizes(n, size);
      && Sum(c) == n
      && (forall k :: 0 <= k < |c| ==> 0 < c[k] <= size)
      && (n == 0 ==> c == [])
      && (n > 0 ==> (|c| - 1) * size < n <= |c| * size)
    decreases n
  {
    if n > size {
      var c := ChunkSizes(n, size);
      ChunkSizesSpec(n - size, size);
      assert c[1..] == ChunkSizes(n - size, size);
      assert |c| * size == size + (|c| - 1) * size;
      assert (|c| - 1) * size == size + (|c| - 2) * size;
    }
  }

  /** `b` is `a` followed by scrape events only. */
  ghost predicate ScrapesAfter(a: seq<Event>, b: seq<Event>) {
    a <= b && forall k :: |a| <= k < |b| ==> b[k].Scraped?
  }

  /** Scrape events change none of the fetch, save and append views. */
  lemma {:induction false} ViewsIgnoreScrapes(a: seq<Event>, b: seq<Event>)
    requires ScrapesAfter(a, b)
    ensures Fetches(b) == Fetches(a) && Saves(b) == Saves(a) && AppendSizes(b) == AppendSizes(a)
    ensures AppendedRows(b) == AppendedRows(a) && HeaderCount(b) == HeaderCount(a)
    decreases |b|
  {
    if |b| > |a| {
      assert ScrapesAfter(a, Init(b));
      ViewsIgnoreScrapes(a, Init(b));
      LogStep(Init(b), Last(b));
      assert Init(b) + [Last(b)] == b;
    } else {
      assert a == b;
    }
  }

  /** Visiting a URL only logs a scrape and may queue one record; the
      table, the checkpoint and the abort flag stay as they were. */
  lemma VisitKeeps(env: Env, r: Run, url: Url)
    ensures var v := Visit(env, r, url);
      && ScrapesAfter(r.log, v.log)
      && v.checkpoint == r.checkpoint && v.aborted == r.aborted
      && v.present == r.present && v.lines == r.lines
      && r.pending <= v.pending && |v.pending| <= |r.pending| + 1
  {
  }

  lemma {:induction false} VisitFromKeeps(env: Env, r: Run, batch: seq<Url>, j: nat)
    requires j <= |batch|
    ensures var v := VisitFrom(env, r, batch, j);
      && ScrapesAfter(r.log, v.log)
      && v.checkpoint == r.checkpoint && v.aborted == r.aborted
      && v.present == r.present && v.lines == r.lines
      && r.pending <= v.pending && |v.pending| <= |r.pending| + (|batch| - j)
    decreases |batch| - j
  {
    if j < |batch| {
      var u := Visit(env, r, batch[j]);
      VisitKeeps(env, r, batch[j]);
      VisitFromKeeps(env, u, batch, j + 1);
    }
  }

  /** A flush appends exactly the accumulator, when it is non-empty, and
      scrapes nothing. */
  lemma FlushTrace(r: Run)
    ensures var f := Flush(r);
      && Fetches(f.log) == Fetches(r.log) && Saves(f.log) == Saves(r.log)
      && AppendedRows(f.log) == AppendedRows(r.log) + r.pending
      && Attempts(f.log) == Attempts(r.log) && f.ledger == r.ledger
      && AppendSizes(f.log) == AppendSizes(r.log) + (if r.pending == [] then [] else [|r.pending|])
      && f.checkpoint == r.checkpoint && f.aborted == r.aborted && f.pending == []
  {
    if r.pending != [] {
      LogStep(r.log, Appended(r.pending, !r.present));
    }
  }

  /** One batch `urls[i:i+size]` and its flush: nothing fetched or saved,
      at most one append, of between 1 and `size` rows. */
  lemma BatchStep(env: Env, r: Run, urls: seq<Url>, i: nat, size: nat)
    requires size > 0 && r.pending == [] && i < |urls|
    ensures var w := Flush(VisitFrom(env, r, urls[i..BatchEnd(i, size, |urls|)], 0));
      && Fetches(w.log) == Fetches(r.log) && Saves(w.log) == Saves(r.log)
      && w.checkpoint == r.checkpoint && w.aborted == r.aborted && w.pending == []
      && AppendSizes(r.log) <= AppendSizes(w.log) && |AppendSizes(w.log)| <= |AppendSizes(r.log)| + 1
      && forall k :: |AppendSizes(r.log)| <= k < |AppendSizes(w.log)| ==> 0 < AppendSizes(w.log)[k] <= size
  {
    var batch := urls[i..BatchEnd(i, size, |urls|)];
    var v := VisitFrom(env, r, batch, 0);
    VisitFromKeeps(env, r, batch, 0);
    ViewsIgnoreScrapes(r.log, v.log);
    FlushTrace(v);
  }

  /** The batches of a section leave the fetches, the saves, the
      checkpoint and the abort flag alone, and the accumulator empty. */
  lemma {:induction false} BatchesKeep(env: Env, r: Run, urls: seq<Url>, i: nat, size: nat)
    requires size > 0 && r.pending == []
    ensures var f := BatchesFrom(env, r, urls, i, size);
      && Fetches(f.log) == Fetches(r.log) && Saves(f.log) == Saves(r.log)
      && f.checkpoint == r.checkpoint && f.aborted == r.aborted && f.pending == []
    decreases |urls| - i
  {
    if i < |urls| {
      var w := Flush(VisitFrom(env, r, urls[i..BatchEnd(i, size, |urls|)], 0));
      BatchStep(env, r, urls, i, size);
      assert BatchesFrom(env, r, urls, i, size) == BatchesFrom(env, w, urls, i + size, size);
      BatchesKeep(env, w, urls, i + size, size);
    }
  }

  /** `b` extends `a` by at most `budget` appends, each of between 1 and
      `size` rows. */
  ghost predicate GrowsWithin(size: nat, a: seq<nat>, b: seq<nat>, budget: nat) {
    && a <= b && |b| <= |a| + budget
    && forall k :: |a| <= k < |b| ==> 0 < b[k] <= size
  }

  lemma GrowsTrans(size: nat, a: seq<nat>, b: seq<nat>, c: seq<nat>, m: nat, n: nat)
    requires GrowsWithin(size, a, b, m) && GrowsWithin(size, b, c, n)
    ensures GrowsWithin(size, a, c, m + n)
  {
    forall k | |a| <= k < |c| ensures 0 < c[k] <= size {
      if k < |b| {
        assert c[k] == b[k];
      }
    }
  }

  lemma BatchesUnfoldSizes(env: Env, r: Run, urls: seq<Url>, i: nat, size: nat, budget: nat)
    requires size > 0 && i < |urls|
    requires var w := Flush(VisitFrom(env, r, urls[i..BatchEnd(i, size, |urls|)], 0));
      GrowsWithin(size, AppendSizes(r.log), AppendSizes(BatchesFrom(env, w, urls, i + size, size).log), budget)
    ensures GrowsWithin(size, AppendSizes(r.log), AppendSizes(BatchesFrom(env, r, urls, i, size).log), budget)
  {
    var w := Flush(VisitFrom(env, r, urls[i..BatchEnd(i, size, |urls|)], 0));
    assert BatchesFrom(env, r, urls, i, size) == BatchesFrom(env, w, urls, i + size, size);
  }

  /** The batches of a section make at most one append per batch, each of
      between 1 and `size` rows. */
  lemma {:induction false} BatchesAppends(env: Env, r: Run, urls: seq<Url>, i: nat, size: nat)
    requires size > 0 && r.pending == [] && i <= |urls|
    ensures GrowsWithin(size, AppendSizes(r.log), AppendSizes(BatchesFrom(env, r, urls, i, size).log),
                        |ChunkSizes(|urls| - i, size)|)
    decreases |urls| - i
  {
    if i < |urls| {
      var w := Flush(VisitFrom(env, r, urls[i..BatchEnd(i, size, |urls|)], 0));
      var n := |ChunkSizes(|urls| - i, size)|;
      BatchStep(env, r, urls, i, size);
      assert GrowsWithin(size, AppendSizes(r.log), AppendSizes(w.log), 1);
      if i + size < |urls| {
        var m := |ChunkSizes(|urls| - (i + size), size)|;
        BatchesAppends(env, w, urls, i + size, size);
        GrowsTrans(size, AppendSizes(r.log), AppendSizes(w.log),
                   AppendSizes(BatchesFrom(env, w, urls, i + size, size).log), 1, m);
        assert n == 1 + m;
      } else {
        assert BatchesFrom(env, w, urls, i + size, size) == w;
        assert n == 1;
      }
      BatchesUnfoldSizes(env, r, urls, i, size, n);
    } else {
      assert BatchesFrom(env, r, urls, i, size) == r;
    }
  }

  /** One section: its batches, then the checkpoint set to its index as
      the last effect, once the accumulator has been flushed. */
  lemma SectionTrace(env: Env, r: Run, idx: nat, urls: seq<Url>, size: nat)
    requires size > 0
    ensures var s := Section(env, r, idx, urls, size);
      && Fetches(s.log) == Fetches(r.log) && Saves(s.log) == Saves(r.log) + [idx]
      && s.checkpoint == Some(SavedText(idx)) && s.aborted == r.aborted && s.pending == []
      && s.log != [] && Last(s.log) == Saved(idx)
  {
    var done := BatchesFrom(env, r.(pending := []), urls, 0, size);
    BatchesKeep(env, r.(pending := []), urls, 0, size);
    LogStep(done.log, Saved(idx));
  }

  /** The appends of one section: at most ⌈n / size⌉ for its n URLs, each
      of between 1 and `size` rows. */
  lemma SectionAppends(env: Env, r: Run, idx: nat, urls: seq<Url>, size: nat)
    requires size > 0
    ensures GrowsWithin(size, AppendSizes(r.log), AppendSizes(Section(env, r, idx, urls, size).log),
                        |ChunkSizes(|urls|, size)|)
  {
    var done := BatchesFrom(env, r.(pending := []), urls, 0, size);
    BatchesAppends(env, r.(pending := []), urls, 0, size);
    LogStep(done.log, Saved(idx));
  }

  lemma RangeSnoc(lo: nat, hi: nat)
    requires lo <= hi
    ensures Range(lo, hi + 1) == Range(lo, hi) + [hi]
  {
  }

  /** A run that started at section `start` with checkpoint file `cp0`
      and has completed sections `start` to `idx - 1`: each of them was
      fetched and then saved, in order, and the checkpoint file holds the
      last one. */
  ghost predicate AtSection(start: nat, cp0: Option<string>, idx: nat, r: Run) {
    && start <= idx
    && Fetches(r.log) == Range(start, idx)
    && Saves(r.log) == Range(start, idx)
    && !r.aborted
    && r.checkpoint == (if idx == start then cp0 else Some(SavedText(idx - 1)))
  }

  /** A finished run that started at section `start` with checkpoint file
      `cp0`: the k sections whose sitemaps could be fetched were fetched
      and saved in order; the run stopped early exactly when the next one
      could not be fetched, after fetching it; the checkpoint file holds
      the last completed section. */
  ghost predicate Scheduled(env: Env, sections: seq<Url>, start: nat, cp0: Option<string>, f: Run) {
    var k := Completed(env, sections, start);
    var stopped := start + k < |sections|;
    && Fetches(f.log) == Range(start, start + k + (if stopped then 1 else 0))
    && Saves(f.log) == Range(start, start + k)
    && f.aborted == stopped
    && f.checkpoint == (if k == 0 then cp0 else Some(SavedText(start + k - 1)))
  }

  lemma {:induction false} RunFromSchedule(env: Env, r: Run, sections: seq<Url>, idx: nat, size: nat,
                                           start: nat, cp0: Option<string>)
    requires size > 0 && AtSection(start, cp0, idx, r)
    requires Completed(env, sections, start) == (idx - start) + Completed(env, sections, idx)
    ensures Scheduled(env, sections, start, cp0, RunFrom(env, r, sections, idx, size))
    decreases |sections| - idx
  {
    if idx < |sections| {
      var r1 := r.(log := r.log + [FetchedSection(idx)]);
      LogStep(r.log, FetchedSection(idx));
      RangeSnoc(start, idx);
      match env.articles(sections[idx])
      case None =>
      case Some(urls) =>
        var s := Section(env, r1, idx, urls, size);
        SectionTrace(env, r1, idx, urls, size);
        assert AtSection(start, cp0, idx + 1, s);
        RunFromSchedule(env, s, sections, idx + 1, size, start, cp0);
    }
  }

  /** Every append of the log has between 1 and `size` rows. */
  ghost predicate SizesWithin(size: nat, log: seq<Event>) {
    forall k :: 0 <= k < |AppendSizes(log)| ==> 0 < AppendSizes(log)[k] <= size
  }

  lemma {:induction false} RunFromSizes(env: Env, r: Run, sections: seq<Url>, idx: nat, size: nat)
    requires size > 0 && SizesWithin(size, r.log)
    ensures SizesWithin(size, RunFrom(env, r, sections, idx, size).log)
    decreases |sections| - idx
  {
    if idx < |sections| {
      var r1 := r.(log := r.log + [FetchedSection(idx)]);
      LogStep(r.log, FetchedSection(idx));
      match env.articles(sections[idx])
      case None =>
      case Some(urls) =>
        var s := Section(env, r1, idx, urls, size);
        SectionAppends(env, r1, idx, urls, size);
        assert SizesWithin(size, s.log) by {
          forall k | 0 <= k < |AppendSizes(s.log)| ensures 0 < AppendSizes(s.log)[k] <= size {
            if k < |AppendSizes(r1.log)| {
              assert AppendSizes(s.log)[k] == AppendSizes(r1.log)[k];
            }
          }
        }
        RunFromSizes(env, s, sections, idx + 1, size);
    }
  }

  /** The schedule of a whole run (main.py:136-180): starting at the index
      read from the checkpoint file, the sections are fetched one after the
      other; each completed section's index is saved; the run ends early
      exactly when a section sitemap cannot be fetched, and the checkpoint
      file then holds the last completed section. When the sitemap index
      itself cannot be fetched, nothing is done. */
  lemma CrawlSchedule(o: Oracles, size: nat, checkpoint: Option<string>, present: bool, lines: seq<Line>)
    requires size > 0
    ensures var r := CrawlRun(o, size, checkpoint, present, lines);
      o.index.None? ==> r.aborted && r.log == [] && r.checkpoint == checkpoint
    ensures o.index.Some? ==>
      Scheduled(EnvOf(o), o.index.value, LoadCheckpoint(checkpoint), checkpoint,
                CrawlRun(o, size, checkpoint, present, lines))
  {
    if o.index.Some? {
      var r0 := Initial(checkpoint, present, lines);
      var start := LoadCheckpoint(checkpoint);
      assert Fetches(r0.log) == [] && Saves(r0.log) == [] && Range(start, start) == [];
      RunFromSchedule(EnvOf(o), r0, o.index.value, start, size, start, checkpoint);
    }
  }

  /** No section below the checkpoint is fetched, and the sections are
      fetched in increasing order, one after the other. */
  lemma CrawlResumesAtCheckpoint(o: Oracles, size: nat, checkpoint: Option<string>, present: bool, lines: seq<Line>)
    requires size > 0
    ensures var fetched := Fetches(CrawlRun(o, size, checkpoint, present, lines).log);
      && (forall k :: 0 <= k < |fetched| ==> LoadCheckpoint(checkpoint) <= fetched[k])
      && (forall k :: 0 <= k < |fetched| - 1 ==> fetched[k + 1] == fetched[k] + 1)
  {
    CrawlSchedule(o, size, checkpoint, present, lines);
    var r := CrawlRun(o, size, checkpoint, present, lines);
    if o.index.None? {
      assert Fetches(r.log) == [];
    }
  }

  /** Every append of a whole run has between 1 and `size` rows: the
      accumulator is flushed only when non-empty, and never holds more than
      one batch. */
  lemma CrawlAppendSizes(o: Oracles, size: nat, checkpoint: Option<string>, present: bool, lines: seq<Line>)
    requires size > 0
    ensures SizesWithin(size, CrawlRun(o, size, checkpoint, present, lines).log)
  {
    var r0 := Initial(checkpoint, present, lines);
    assert AppendSizes(r0.log) == [];
    if o.index.Some? {
      RunFromSizes(EnvOf(o), r0, o.index.value, LoadCheckpoint(checkpoint), size);
    }
  }
}
