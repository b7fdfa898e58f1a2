/** The output table (main.py:140-144, 169-175): a CSV file of article
    rows under one header line. The first flush creates the file with the
    header; every later flush appends rows only. When the crawler starts,
    the URLs already in the file seed its dedup ledger. */
module OutputSink {
  import opened PageExtractor
  import opened Effects

  datatype Line = Header | Row(record: ArticleRecord)

  function Rows(records: seq<ArticleRecord>): (lines: seq<Line>)
    ensures |lines| == |records|
    ensures forall i :: 0 <= i < |records| ==> lines[i] == Row(records[i])
  {
    seq(|records|, i requires 0 <= i < |records| => Row(records[i]))
  }

  /** A table this program wrote: absent and empty, or one header line on
      top of data rows. */
  predicate WellFormed(present: bool, lines: seq<Line>) {
    && (!present ==> lines == [])
    && (present ==> |lines| >= 1 && lines[0] == Header)
    && (forall i :: 1 <= i < |lines| ==> lines[i].Row?)
  }

  /** No two data rows of the table share a URL. */
  predicate RowUrlsDistinct(lines: seq<Line>) {
    forall i, j :: 0 <= i < j < |lines| && lines[i].Row? && lines[j].Row? ==>
      lines[i].record.url != lines[j].record.url
  }

  /** `set(pd.read_csv(...)['url'])` on an existing table, the empty set
      when there is none. */
  function ExistingUrls(present: bool, lines: seq<Line>): set<Url> {
    if present then set l | l in lines && l.Row? :: l.record.url else {}
  }

  /** The lines after `DataFrame(records).to_csv(...)`: with the header when
      the file is created (mode 'w'), without it when appending (mode 'a'). */
  function AfterAppend(present: bool, lines: seq<Line>, records: seq<ArticleRecord>): seq<Line> {
    (if present then lines else [Header]) + Rows(records)
  }

  /** An append keeps the old lines in front, writes the header only when
      it creates the file, ends with the new rows, and keeps a well-formed
      table well-formed. */
  lemma AppendKeepsWellFormed(present: bool, lines: seq<Line>, records: seq<ArticleRecord>)
    ensures var r := AfterAppend(present, lines, records);
      && (WellFormed(present, lines) ==> WellFormed(true, r))
      && |r| == (if present then |lines| else 1) + |records|
      && r[|r| - |records|..] == Rows(records)
      && (present ==> r[..|lines|] == lines)
      && (!present ==> r[0] == Header)
  {
    var r := AfterAppend(present, lines, records);
    assert r[|r| - |records|..] == Rows(records);
  }

  /** The output table; every append is recorded in `journal`. */
  class CsvFile {
    var present: bool
    var lines: seq<Line>
    ghost const journal: Journal

    ghost predicate Valid()
      reads this
    {
      WellFormed(present, lines)
    }

    constructor (present: bool, lines: seq<Line>, journal: Journal)
      requires WellFormed(present, lines)
      ensures Valid() && this.present == present && this.lines == lines && this.journal == journal
    {
      this.present := present;
      this.lines := lines;
      this.journal := journal;
    }

    /** The URL column of the existing table (main.py:140-144). */
    method ReadUrls() returns (urls: set<Url>)
      requires Valid()
      ensures urls == ExistingUrls(present, lines)
      ensures forall u :: u in urls <==> exists i :: 1 <= i < |lines| && lines[i].record.url == u
    {
      urls := if present then set l | l in lines && l.Row? :: l.record.url else {};
      forall u | u in urls ensures exists i :: 1 <= i < |lines| && lines[i].record.url == u {
        var l :| l in lines && l.Row? && l.record.url == u;
        var i :| 0 <= i < |lines| && lines[i] == l;
      }
    }

    /** Append a batch of records; the header is written only by the append
        that creates the file, so it stays the one header, on top. */
    method Append(records: seq<ArticleRecord>)
      requires Valid()
      modifies this, journal
      ensures Valid() && present
      ensures lines == AfterAppend(old(present), old(lines), records)
      ensures forall i :: 0 <= i < |lines| ==> (lines[i] == Header <==> i == 0)
      ensures journal.events == old(journal.events) + [Appended(records, !old(present))]
    {
      journal.events := journal.events + [Appended(records, !present)];
      if !present {
        lines := [Header] + Rows(records);
        present := true;
      } else {
        lines := lines + Rows(records);
      }
    }
  }
}
