/** The effects of a crawl, in the order they happen, and the ghost journal
    that records them. The checkpoint file and the output table hold a
    reference to the same journal, and their writing methods extend it
    themselves, so the order of `Appended` and `Saved` in the journal is the
    order in which those methods were called. */
module Effects {
  import opened PageExtractor

  /** One effect of the driver. */
  datatype Event =
    | FetchedSection(index: nat)                        // fetch_article_urls(sitemap_urls[index])
    | Scraped(url: Url, ok: bool)                       // scrape_article(url); ok when it gave a record
    | Appended(rows: seq<ArticleRecord>, header: bool)  // to_csv of one batch, with or without header
    | Saved(index: nat)                                 // save_checkpoint(index)

  /** The record of every effect so far. */
  class Journal {
    ghost var events: seq<Event>

    constructor ()
      ensures events == []
    {
      events := [];
    }
  }
}
