# Resumable article crawler — a verified model

This project models the core of `main.py`, a sequential, resumable crawler for a
blog platform's sitemap hierarchy. The crawler reads a sitemap index, then visits
the section sitemaps one by one, starting at the index stored in a checkpoint
file. It scrapes every article URL of a section in batches of 50 (`BATCH_SIZE`).
It skips URLs already in its dedup ledger (`existing_urls`, seeded from the rows
of the output table) and appends each non-empty batch of records to a CSV table.
The header is written only by the append that creates the file. After each
section it saves the section's index as the checkpoint.

The model has these parts:

- `decimal.dfy` and `checkpoint.dfy`: the checkpoint codec. `Decimal` covers ASCII
  digit strings and their value, the rule "digits → `int`, else 0", and `str(n)`.
  `Checkpoint` covers Python's `str.strip` over its whitespace set,
  `load_checkpoint` / `save_checkpoint`, and a `CheckpointFile` class whose content
  the driver overwrites.
- `text_features.dfy`: `compute_text_features` over the tokens the tokenizers
  return. The tokenizers and the reading-ease score are oracles of an `Nlp` value.
- `page_extractor.dfy`: the fields `scrape_article` extracts, and their defaults. A parsed page is
  a sequence of elements in document order. `find` / `find_all` become `Find` /
  `FindAll`. Tags are joined with `", "`. The two counters are parsed by the
  checkpoint's digit rule.
- `output_sink.dfy`: the CSV table as lines (one header, then rows), and the
  `CsvFile` class with `ReadUrls` and `Append`.
- `effects.dfy`: the driver's effects (`FetchedSection`, `Scraped`, `Appended`,
  `Saved`) and the ghost `Journal` that records them. The table and the
  checkpoint file share one journal, and their writing methods extend it
  themselves.
- `crawl_spec.dfy`: the driver `main()` as a state machine over a `Run` value. A
  `Run` holds the ledger, the accumulator, the table, the checkpoint file and the
  log of the driver's effects. The network enters as the `Oracles` value.
- `crawl_trace.dfy`: the schedule of a run. It covers which sections are fetched
  and saved, what the checkpoint holds, and how many appends each section makes
  and of what size.
- `crawl_coverage.dfy`: what a section scrapes and writes. A reference walk,
  `NewUrls`, restates the per-URL rule on the ledger alone. A section scrapes
  exactly the URLs that walk names, in list order, and appends exactly the
  records those scrapes returned.
- `crawl_properties.dfy`: deduplication, the shape of the table, and the resume
  behaviour across two runs.
- `crawl_driver.dfy`: `main()` as an imperative method. Its nested loops update a
  local ledger and accumulator and call `CsvFile.Append` and
  `CheckpointFile.Save`. Those two calls record themselves in the shared
  journal; the driver adds the fetches and scrapes, which are calls of pure
  oracles. The method is proved to end with the table, the checkpoint file and
  the journal exactly as `CrawlRun` gives them. So the lemmas about the order of
  appends and saves in `CrawlRun`'s log hold of the calls the method makes.

A batch that scraped nothing new writes nothing: the accumulator is
appended only when it is non-empty (main.py:169), so an append never has
zero rows.

Resuming is inclusive. The checkpoint names the last section completed, and the
next run starts at that same index, so that section is fetched again. Only the
ledger keeps its articles from being scraped and appended twice.
`CrawlProperties.ResumeRefetchesLastSection` and
`CrawlProperties.ResumeSkipsAppendedRows` state both halves.

## Model

| member | source | states |
|---|---|---|
| Decimal.DigitsOrZero | main.py:41 | a string that is not all ASCII digits (the empty string included) reads as 0; a canonical digit string reads as the `n` with `str(n)` equal to it |
| Decimal.ValueLeadingZeros | main.py:41 | leading zeros do not change the value of a digit string |
| Decimal.DigitsOrZeroLeadingZeros | main.py:41 | the digit rule ignores leading zeros: "007" reads as 7 and "00" as 0 |
| Decimal.ValueOfShow | main.py:41-46 | the decimal value of `str(n)` is `n` |
| Decimal.ShowOfValue | main.py:41-46 | a canonical digit string (no leading zero) is `str` of its own value |
| Decimal.ShowInjective | main.py:46 | distinct indices are saved as distinct texts |
| Decimal.DigitsOrZeroOfShow | main.py:41-46 | the digit rule reads `str(n)` back as `n` |
| Decimal.Show | main.py:46 | `str(n)` is a non-empty digit string with no leading zero unless it is "0" |
| Checkpoint.Strip | main.py:40 | the stripped text neither starts nor ends with a whitespace character |
| Checkpoint.StripSurrounded | main.py:40 | stripping removes exactly the surrounding whitespace and keeps the inner text |
| Checkpoint.LoadCheckpoint | main.py:37-42 | a missing file gives 0; a non-zero result comes only from content whose stripped text is all digits |
| Checkpoint.SavedText | main.py:44-46 | the saved text is a canonical decimal string |
| Checkpoint.LoadAfterSave | main.py:37-46 | loading after saving index `n` gives `n`, for every `n` |
| Checkpoint.LoadIgnoresSurroundingSpace | main.py:40-41 | whitespace around a saved index (such as a trailing newline) does not change what is loaded |
| Checkpoint.CheckpointFile.Load | main.py:37-42 | the method returns the index the codec reads from the current content, and 0 when there is no file |
| Checkpoint.CheckpointFile.Save | main.py:44-46 | the file is overwritten with `str(index)`, a later load returns `index`, and the save is recorded at the end of the journal |
| TextFeatures.DistinctBounds | main.py:66-67 | the distinct words number at most the words, and at least one when there are any |
| TextFeatures.ComputeTextFeatures | main.py:60-69 | with no sentences the average is 0; otherwise average × sentences = words; with no words the diversity and readability are 0; otherwise diversity × words = distinct words, it lies in (0, 1], and readability is the oracle's score |
| PageExtractor.FindAll | main.py:99-104 | the matches are never more than the elements of the page |
| PageExtractor.Find | main.py:77 | a found element matches the selector |
| PageExtractor.FindAllExact | main.py:99-104 | every element `find_all` returns is a matching element of the page, and every matching element is among those returned |
| PageExtractor.FindAllConcat | main.py:99-104 | `find_all` keeps each matching element, with repeats, in document order: on a concatenation of pages it is the concatenation of the results, and on one element it is that element exactly when it matches |
| PageExtractor.FindAllCount | main.py:99-104 | the number of elements `find_all` returns is the number of positions of the page holding a matching element |
| PageExtractor.FindIsFirstMatch | main.py:77-97 | `find` is the first element of `find_all`, and finds nothing exactly when no element matches |
| PageExtractor.FindFirst | main.py:77-97 | `find` returns the element at the least position holding a match |
| PageExtractor.FindAllNarrower | main.py:85-104 | a narrower selector matches no more elements, so there are never more tag links than links |
| PageExtractor.SplitJoin | main.py:85-110 | tags without ", " in them are recovered by splitting their join |
| PageExtractor.ExtractRecord | main.py:77-126 | the record keeps the URL; the title, author and body are the first matching element's text (spaced text for the body), and "" when there is none; the date is the first `<time>`'s `datetime` attribute, and "" when there is no `<time>` or it lacks one; the tags are the tag links' texts joined with ", "; each counter is the value of an all-digit text and 0 otherwise; each structural count is the length of its match list; the text features are those of the body |
| PageExtractor.Scrape | main.py:71-130 | a record is produced exactly when the page could be fetched and parsed, and it carries the requested URL |
| PageExtractor.MissingFieldsDefault | main.py:77-97 | a page where none of the seven class- or tag-specific selectors matches (other links, divs and buttons allowed) yields "" for title, body, author, date and tags, and 0 for both counters |
| PageExtractor.CounterReadsDigits | main.py:93-97 | a likes button or comment-count link whose text is `str(n)`, possibly after leading zeros, gives a count of `n` |
| PageExtractor.TagsRoundTrip | main.py:85-110 | the tags column splits back into the texts of the tag links |
| OutputSink.AppendKeepsWellFormed | main.py:169-175 | an append leaves one header on top of rows; it keeps the old lines and adds the records' rows after them, or starts the file with the header |
| OutputSink.CsvFile.ReadUrls | main.py:140-144 | the seed is exactly the set of URLs of the table's rows, and empty when there is no file |
| OutputSink.CsvFile.Append | main.py:170-174 | the file exists afterwards; the header is written only when the file is created; the header is line 0 and no other line; the append, with its rows and whether it wrote the header, is recorded at the end of the journal |
| CrawlSpec.EnvOf | main.py:106-107 | every record the scraper returns carries the URL it was asked for |
| CrawlSpec.EnvOfScrape | main.py:163 | the driver's scraper is `scrape_article` on the page oracle |
| CrawlSpec.BatchEnd | main.py:159 | the slice `urls[i:i+size]` ends after `i` and no later than the list |
| CrawlTrace.ChunkSizesSpec | main.py:158-159 | the batches of `n` URLs have sizes in (0, size] that add up to `n`; there are none for `n` = 0 and ⌈n/size⌉ otherwise |
| CrawlTrace.ViewsIgnoreScrapes | main.py:160-167 | scrape events change none of the fetches, saves, appends or headers in the log |
| CrawlTrace.VisitFromKeeps | main.py:160-167 | the scrape loop of a batch only scrapes: the table, the checkpoint and the abort flag are unchanged, and the accumulator only grows, by at most one record per URL |
| CrawlTrace.FlushTrace | main.py:169-175 | a flush appends once exactly when the accumulator is non-empty; the rows appended are the accumulator's records, in order; it then clears the accumulator and scrapes nothing |
| CrawlTrace.BatchStep | main.py:158-175 | one batch and its flush make at most one append, of between 1 and size rows, and leave the accumulator empty |
| CrawlTrace.BatchesKeep | main.py:158-175 | the batches of a section fetch no section, save no checkpoint and leave the accumulator empty |
| CrawlTrace.BatchesAppends | main.py:158-175 | the batches of `n` URLs make at most ⌈n/size⌉ appends, each of between 1 and size rows |
| CrawlTrace.SectionTrace | main.py:156-177 | a section saves its own index as the checkpoint as its last effect, after its accumulator has been flushed |
| CrawlTrace.SectionAppends | main.py:156-177 | a section of `n` URLs makes at most ⌈n/size⌉ appends, each of between 1 and size rows |
| CrawlTrace.RunFromSchedule | main.py:149-178 | from any section on, the sections are fetched and saved in order until the first one that cannot be fetched, and the checkpoint holds the last one saved |
| CrawlTrace.RunFromSizes | main.py:149-178 | every append of the remaining sections has between 1 and size rows |
| CrawlTrace.CrawlSchedule | main.py:136-180 | a run fetches the sections from the checkpoint index on, consecutively; it saves each completed one; it stops early exactly when a section cannot be fetched; the checkpoint then names the last completed section; a run without a sitemap index does nothing |
| CrawlTrace.CrawlResumesAtCheckpoint | main.py:137-153 | no section below the loaded checkpoint is fetched, and the fetched indices are consecutive |
| CrawlTrace.CrawlAppendSizes | main.py:158-175 | every append of a run has between 1 and 50 rows (between 1 and the batch size) |
| CrawlProperties.FreshAt | main.py:160-166 | at every scrape in the log, the URL is in neither the seed nor the earlier successes |
| CrawlProperties.FreshSuccesses | main.py:160-166 | the successful scrapes are pairwise distinct and none is in the seed |
| CrawlProperties.AcceptLedger | main.py:163-166 | a successful scrape of a URL outside the ledger queues its record and adds the URL to the ledger, keeping the ledger invariant |
| CrawlProperties.RejectLedger | main.py:163-164 | a failed scrape leaves the URL out of the ledger and keeps the ledger invariant |
| CrawlProperties.VisitLedger | main.py:160-166 | visiting a URL outside the ledger keeps the ledger invariant |
| CrawlProperties.VisitFromLedger | main.py:160-167 | the scrape loop of a batch keeps the ledger invariant |
| CrawlProperties.FlushLedger | main.py:169-175 | flushing moves the accumulator into the appended rows and keeps the ledger invariant |
| CrawlProperties.BatchLedger | main.py:158-175 | one batch and its flush keep the ledger invariant |
| CrawlProperties.BatchesLedger | main.py:158-175 | all batches of a section keep the ledger invariant |
| CrawlProperties.RunFromLedger | main.py:149-178 | the remaining sections keep the ledger invariant and leave the accumulator empty |
| CrawlProperties.TableKeeps | main.py:160-167 | steps that append nothing keep the table invariant |
| CrawlProperties.FlushTable | main.py:169-175 | a flush appends the accumulator's rows to the table; it writes the header only when it creates the file |
| CrawlProperties.BatchTable | main.py:158-175 | one batch and its flush keep the table invariant |
| CrawlProperties.BatchesTable | main.py:158-175 | all batches of a section keep the table invariant |
| CrawlProperties.RunFromTable | main.py:149-178 | the remaining sections keep the table invariant |
| CrawlProperties.CrawlInv | main.py:136-180 | at the end of a run the ledger invariant and the table invariant hold, and the accumulator is empty |
| CrawlProperties.CrawlAppendsFreshRows | main.py:140-175 | the appended rows are exactly the successful scrapes, in order; their URLs are pairwise distinct and not in the seed; each row is the record `scrape_article` returned for its URL; the ledger is the seed plus those URLs; the table is the old one plus those rows; the header is written once, only if the run created the file |
| CrawlProperties.CrawlKeepsTableWellFormed | main.py:169-174 | a run leaves a table with one header on top of rows |
| CrawlProperties.CrawlNeverRescrapes | main.py:160-166 | no scraped URL is in the seed, and none was scraped successfully earlier in the run |
| CrawlProperties.AppendKeepsRowUrlsDistinct | main.py:170-174 | appending rows with distinct new URLs keeps the table's row URLs distinct |
| CrawlProperties.CrawlKeepsRowUrlsDistinct | main.py:140-175 | a table whose rows have distinct URLs still has distinct row URLs after a run, so repeated runs add no duplicate rows |
| CrawlProperties.ScheduledLastSave | main.py:177 | once a section has been saved, the checkpoint file names the last section saved |
| CrawlProperties.ScheduledFirstFetch | main.py:149-153 | a schedule that starts inside the section list fetches its start section first |
| CrawlProperties.CheckpointIsLastSave | main.py:177 | after a run that saved a section, the checkpoint file names the last section saved |
| CrawlProperties.FirstFetchIsCheckpoint | main.py:137-153 | the first section a run fetches is the one the checkpoint names, when that index is in range |
| CrawlProperties.ResumeRefetchesLastSection | main.py:137-177 | a run started from the files another run left behind first fetches again the section that run saved last |
| CrawlProperties.CrawlSkipsTableRows | main.py:140-162 | a run never scrapes the URL of a row already in its table |
| CrawlProperties.AppendedRowsInTable | main.py:170-174 | every row a run appends is in the table it leaves, so the next run's ledger contains its URL |
| CrawlProperties.ResumeSkipsAppendedRows | main.py:140-177 | a run resumed from another run's files scrapes none of the articles the other run appended, including those of the section it fetches again |
| CrawlCoverage.NewUrlsExact | main.py:160-166 | a URL is scraped during a walk of a list exactly when it is in the list and was not in the ledger at the start |
| CrawlCoverage.NewUrlsConcat | main.py:158-166 | walking a list in two pieces scrapes, and leaves in the ledger, exactly what walking it whole does |
| CrawlCoverage.FoundScraped | main.py:163-165 | each record found is the scraper's answer for its own URL |
| CrawlCoverage.VisitCovers | main.py:161-166 | one URL is scraped exactly when it is outside the ledger; its record is queued and the ledger updated as the reference walk says |
| CrawlCoverage.VisitFromCovers | main.py:160-167 | the scrape loop of a batch scrapes exactly the reference walk's URLs, in order, queues exactly their records and appends nothing |
| CrawlCoverage.BatchCovers | main.py:158-175 | one batch and its flush scrape the batch's new URLs and append exactly the records they returned |
| CrawlCoverage.BatchesCover | main.py:158-175 | the slices `urls[i:i+size]` together scrape exactly the new URLs of the whole list, in list order, and append exactly their records |
| CrawlCoverage.SectionCovers | main.py:156-177 | a section scrapes exactly the URLs of its list not in the ledger when they are reached, in order, and appends exactly the records those scrapes returned |
| CrawlCoverage.RunFromRowsScraped | main.py:149-178 | the remaining sections append only records the scraper returned for the rows' URLs |
| CrawlCoverage.CrawlRowsAreScrapes | main.py:136-180 | every row a run appends is the record `scrape_article` returned for its URL, unaltered |
| CrawlCoverage.SectionExample | main.py:156-177 | a section listing one known and two new URLs that both scrape scrapes exactly the two new ones, in order, and appends exactly their two records |
| CrawlDriver.ScrapeBatch | main.py:160-167 | the scrape loop of a batch ends with the ledger, accumulator and journal that `VisitFrom` gives |
| CrawlDriver.CrawlSection | main.py:156-177 | the batch loop and the checkpoint save of a section leave the table, the checkpoint file, the ledger and the journal in the state `Section` gives, so the appends and the save it calls come in the order `Section` logs them |
| CrawlDriver.CrawlSections | main.py:149-178 | the section loop ends with the table, the checkpoint file and the journal `RunFrom` gives, and reports an early stop exactly when the state machine aborts |
| CrawlDriver.Crawl | main.py:136-180 | `main()` leaves the table, the checkpoint file and the journal of its appends and saves as `CrawlRun` does, with the same abort outcome |

## Left out

- HTTP fetching, `raise_for_status` and the request header are not modelled. They become the `Oracles` value: `index` for the sitemap index, `articles` for a section sitemap, `page` for an article page. A failure is `None`.
- XML parsing with the sitemap namespace is not modelled. A sitemap oracle returns the ordered `loc` strings.
- BeautifulSoup is not modelled. A page is a sequence of elements in document order, each with a name, classes, attributes and the two texts `get_text` produces (stripped, and joined with spaces).
- Class matching is reduced to membership of one class. `get_text` normalisation is not modelled.
- The `nltk` tokenizers, `nltk.download` and `flesch_reading_ease` are oracles. Ratios are exact `real` values, not floating point.
- TextFeatures.ComputeTextFeatures: readability is only related to the oracle's score. Python's floating-point rounding of the two quotients is not modelled.
- pandas CSV reading and writing, the UTF-8-sig encoding and field quoting are not modelled. The table is a sequence of lines (one header, then one row per record) plus an exists flag. Reading it back gives the URLs of the rows written.
- Any exception inside `scrape_article` is modelled as the page oracle returning `None`. This includes a failure of `get_text` or `int()`.
- `time.sleep`, `tqdm`, `print` and the error messages are left out. They have no effect on state.
- Python's `str.isdigit` also accepts non-ASCII digits, which `int()` may reject. The model accepts only ASCII `0`-`9`.
- Crashes and I/O errors while writing the table or the checkpoint are not modelled. Each append and save is atomic here. The loss of an unflushed batch on a crash is therefore not modelled either.
- CrawlProperties.CrawlAppendsFreshRows: the header is counted per run. That it comes with the first append of the run follows from the table shape, not from a separate statement about the event order.
