/** The page extractor (main.py:71-130). An HTML page is seen as the
    sequence of its elements in document order, each with its tag name,
    class list, attributes and the two texts the extractor asks for. The
    HTML parser that produces this view, and the text flattening it does,
    are outside the model. Every field is an independent lookup with a
    default, so a missing element never makes extraction fail. */
module PageExtractor {
  import opened Wrappers
  import opened Decimal
  import opened TextFeatures

  type Url = string

  /** One element of the parsed page. `text` is `get_text(strip=True)`,
      `spacedText` is `get_text(separator=' ', strip=True)`. */
  datatype Element = Element(
    name: string,
    classes: seq<string>,
    attrs: map<string, string>,
    text: string,
    spacedText: string)

  type Document = seq<Element>

  /** A `find`/`find_all` query: one of a set of tag names, and optionally a
      class the element must carry. */
  datatype Selector = Selector(names: set<string>, cls: Option<string>)

  predicate Matches(e: Element, sel: Selector) {
    e.name in sel.names && (sel.cls.None? || sel.cls.value in e.classes)
  }

  /** The fixed extraction schema of main.py:77-104. */
  const TitleSel := Selector({"h1"}, None)
  const BodySel := Selector({"div"}, Some("crayons-article__body"))
  const TagSel := Selector({"a"}, Some("crayons-article__tag"))
  const AuthorSel := Selector({"a"}, Some("crayons-article__subheader__link"))
  const TimeSel := Selector({"time"}, None)
  const LikesSel := Selector({"button"}, Some("js-react-button"))
  const CommentsSel := Selector({"a"}, Some("crayons-article__comment-count"))
  const CodeSel := Selector({"pre"}, None)
  const ImageSel := Selector({"img"}, None)
  const H2Sel := Selector({"h2"}, None)
  const H3Sel := Selector({"h3"}, None)
  const ListSel := Selector({"ul", "ol"}, None)
  const LinkSel := Selector({"a"}, None)

  /** `soup.find_all(...)`: the matching elements, in document order. */
  function FindAll(doc: Document, sel: Selector): (r: seq<Element>)
    ensures |r| <= |doc|
  {
    if doc == [] then []
    else if Matches(doc[0], sel) then [doc[0]] + FindAll(doc[1..], sel)
    else FindAll(doc[1..], sel)
  }

  /** `soup.find(...)`: the first matching element, if any. */
  function Find(doc: Document, sel: Selector): (r: Option<Element>)
    ensures r.Some? ==> Matches(r.value, sel)
  {
    if doc == [] then None
    else if Matches(doc[0], sel) then Some(doc[0])
    else Find(doc[1..], sel)
  }

  /** `find_all` returns exactly the matching elements of the page. */
  lemma {:induction false} FindAllExact(doc: Document, sel: Selector)
    ensures forall i :: 0 <= i < |FindAll(doc, sel)| ==>
      FindAll(doc, sel)[i] in doc && Matches(FindAll(doc, sel)[i], sel)
    ensures forall i :: 0 <= i < |doc| && Matches(doc[i], sel) ==> doc[i] in FindAll(doc, sel)
  {
    if doc != [] {
      FindAllExact(doc[1..], sel);
      var r := FindAll(doc, sel);
      var rest := FindAll(doc[1..], sel);
      forall i | 0 <= i < |r| ensures r[i] in doc {
        if Matches(doc[0], sel) && i > 0 {
          assert r[i] == rest[i - 1];
        }
      }
      forall i | 1 <= i < |doc| && Matches(doc[i], sel) ensures doc[i] in r {
        assert doc[i] == doc[1..][i - 1];
      }
    }
  }

  /** `find` gives the first element of `find_all`, and nothing exactly
      when no element of the page matches. */
  lemma {:induction false} FindIsFirstMatch(doc: Document, sel: Selector)
    ensures Find(doc, sel) == (if FindAll(doc, sel) == [] then None else Some(FindAll(doc, sel)[0]))
    ensures Find(doc, sel).None? <==> forall i :: 0 <= i < |doc| ==> !Matches(doc[i], sel)
  {
    if doc != [] {
      FindIsFirstMatch(doc[1..], sel);
      if !Matches(doc[0], sel) {
        assert forall i :: 1 <= i < |doc| ==> doc[i] == doc[1..][i - 1];
      }
    }
  }

  /** `find_all` keeps every matching element with its multiplicity and in
      document order: on a concatenation it is the concatenation of the two
      results, and on one element it is that element when it matches. */
  lemma {:induction false} FindAllConcat(a: Document, b: Document, sel: Selector)
    ensures FindAll(a + b, sel) == FindAll(a, sel) + FindAll(b, sel)
    ensures forall e :: FindAll([e], sel) == if Matches(e, sel) then [e] else []
    decreases |a|
  {
    if a == [] {
      assert a + b == b;
    } else {
      assert (a + b)[0] == a[0] && (a + b)[1..] == a[1..] + b;
      FindAllConcat(a[1..], b, sel);
    }
    forall e ensures FindAll([e], sel) == if Matches(e, sel) then [e] else [] {
      assert [e][1..] == [];
    }
  }

  /** The positions of the page's matching elements. */
  function MatchPositions(doc: Document, sel: Selector): set<nat> {
    set i: nat | i < |doc| && Matches(doc[i], sel)
  }

  lemma MatchPositionsSnoc(front: Document, e: Element, sel: Selector)
    ensures MatchPositions(front + [e], sel)
         == MatchPositions(front, sel) + (if Matches(e, sel) then {|front|} else {})
  {
    var doc := front + [e];
    forall i: nat ensures i in MatchPositions(doc, sel) <==>
      i in MatchPositions(front, sel) + (if Matches(e, sel) then {|front|} else {})
    {
      if i < |front| {
        assert doc[i] == front[i];
      }
    }
  }

  /** `len(soup.find_all(...))` is the number of matching elements of the
      page, counted by position. */
  lemma {:induction false} FindAllCount(doc: Document, sel: Selector)
    ensures |FindAll(doc, sel)| == |MatchPositions(doc, sel)|
    decreases |doc|
  {
    if doc != [] {
      var n := |doc| - 1;
      var front := doc[..n];
      var e := doc[n];
      assert doc == front + [e];
      FindAllCount(front, sel);
      FindAllConcat(front, [e], sel);
      MatchPositionsSnoc(front, e, sel);
      assert n !in MatchPositions(front, sel);
    }
  }

  /** `find` returns the element at the least matching position. */
  lemma {:induction false} FindFirst(doc: Document, sel: Selector, k: nat)
    requires k < |doc| && Matches(doc[k], sel)
    requires forall j :: 0 <= j < k ==> !Matches(doc[j], sel)
    ensures Find(doc, sel) == Some(doc[k])
    decreases k
  {
    if k > 0 {
      assert doc[1..][k - 1] == doc[k];
      assert forall j :: 0 <= j < k - 1 ==> doc[1..][j] == doc[j + 1];
      FindFirst(doc[1..], sel, k - 1);
    }
  }

  /** A selector at least as strict as another never finds more elements. */
  lemma {:induction false} FindAllNarrower(doc: Document, narrow: Selector, wide: Selector)
    requires forall e :: Matches(e, narrow) ==> Matches(e, wide)
    ensures |FindAll(doc, narrow)| <= |FindAll(doc, wide)|
  {
    if doc != [] {
      FindAllNarrower(doc[1..], narrow, wide);
    }
  }

  /** `", ".join(parts)`. */
  function Join(parts: seq<string>): (r: string)
    ensures parts == [] ==> r == ""
    ensures |parts| == 1 ==> r == parts[0]
  {
    if parts == [] then ""
    else if |parts| == 1 then parts[0]
    else parts[0] + ", " + Join(parts[1..])
  }

  /** True when `s` contains the separator ", ". */
  predicate HasSeparator(s: string) {
    exists i :: 0 <= i < |s| - 1 && s[i] == ',' && s[i + 1] == ' '
  }

  /** `s.split(", ")`: the partner of `Join` used by a reader of the tags column. */
  function Split(s: string): (r: seq<string>)
    ensures |r| >= 1
  {
    if |s| >= 2 && s[0] == ',' && s[1] == ' ' then [""] + Split(s[2..])
    else if s == [] then [""]
    else
      var rest := Split(s[1..]);
      [[s[0]] + rest[0]] + rest[1..]
  }

  lemma {:induction false} SplitPlain(x: string)
    requires !HasSeparator(x)
    ensures Split(x) == [x]
  {
    if x != [] {
      assert !(|x| >= 2 && x[0] == ',' && x[1] == ' ');
      assert !HasSeparator(x[1..]) by {
        forall i | 0 <= i < |x| - 2 ensures !(x[1..][i] == ',' && x[1..][i + 1] == ' ') {
          assert x[1..][i] == x[i + 1] && x[1..][i + 1] == x[i + 2];
        }
      }
      SplitPlain(x[1..]);
      assert x == [x[0]] + x[1..];
    }
  }

  lemma {:induction false} SplitAfter(x: string, rest: string)
    requires !HasSeparator(x)
    ensures Split(x + ", " + rest) == [x] + Split(rest)
  {
    var s := x + ", " + rest;
    if x == [] {
      assert s[2..] == rest;
    } else {
      assert s[0] == x[0];
      assert s[1] == if |x| >= 2 then x[1] else ',';
      assert !HasSeparator(x[1..]) by {
        forall i | 0 <= i < |x| - 2 ensures !(x[1..][i] == ',' && x[1..][i + 1] == ' ') {
          assert x[1..][i] == x[i + 1] && x[1..][i + 1] == x[i + 2];
        }
      }
      assert s[1..] == x[1..] + ", " + rest;
      SplitAfter(x[1..], rest);
      assert x == [x[0]] + x[1..];
    }
  }

  /** Splitting a joined tag list gives the tags back, provided there is at
      least one tag and none of them contains the separator. (An empty list
      and a list holding one empty tag both join to "".) */
  lemma {:induction false} SplitJoin(parts: seq<string>)
    requires parts != []
    requires forall i :: 0 <= i < |parts| ==> !HasSeparator(parts[i])
    ensures Split(Join(parts)) == parts
  {
    if |parts| == 1 {
      SplitPlain(parts[0]);
    } else {
      SplitJoin(parts[1..]);
      SplitAfter(parts[0], Join(parts[1..]));
      assert parts == [parts[0]] + parts[1..];
    }
  }

  /** One output row (main.py:106-126), with its 19 fields in column order. */
  datatype ArticleRecord = ArticleRecord(
    url: Url,
    title: string,
    body: string,
    tags: string,
    author: string,
    publishedAt: string,
    likesCount: nat,
    commentsCount: nat,
    codeSnippetsCount: nat,
    imagesCount: nat,
    numWords: nat,
    numSentences: nat,
    avgSentenceLength: real,
    lexicalDiversity: real,
    readabilityScore: real,
    numH2: nat,
    numH3: nat,
    numLists: nat,
    numLinks: nat)

  /** The stripped text of an optional element, or "". */
  function TextOr(e: Option<Element>): string {
    match e
    case Some(el) => el.text
    case None => ""
  }

  /** `int(t) if tag and t.isdigit() else 0` with `t` the element's text. */
  function CounterOf(e: Option<Element>): (n: nat)
    ensures e.None? ==> n == 0
    ensures e.Some? ==> n == DigitsOrZero(e.value.text)
  {
    match e
    case Some(el) => DigitsOrZero(el.text)
    case None => 0
  }

  /** The `datetime` attribute of the first `<time>` element; "" when there
      is no `<time>` or the first one lacks the attribute. */
  function PublishedAt(doc: Document): string {
    match Find(doc, TimeSel)
    case Some(t) => if "datetime" in t.attrs then t.attrs["datetime"] else ""
    case None => ""
  }

  function Texts(es: seq<Element>): (r: seq<string>)
    ensures |r| == |es| && forall i :: 0 <= i < |es| ==> r[i] == es[i].text
  {
    seq(|es|, i requires 0 <= i < |es| => es[i].text)
  }

  /** The fields of a parsed page (main.py:77-126). */
  function ExtractRecord(url: Url, doc: Document, nlp: Nlp): (r: ArticleRecord)
    ensures r.url == url
    // missing optional elements give the defaults
    ensures Find(doc, TitleSel).None? ==> r.title == ""
    ensures Find(doc, BodySel).None? ==> r.body == ""
    ensures Find(doc, AuthorSel).None? ==> r.author == ""
    ensures Find(doc, TimeSel).None? ==> r.publishedAt == ""
    ensures FindAll(doc, TagSel) == [] ==> r.tags == ""
    // present elements give their texts
    ensures Find(doc, TitleSel).Some? ==> r.title == Find(doc, TitleSel).value.text
    ensures Find(doc, BodySel).Some? ==> r.body == Find(doc, BodySel).value.spacedText
    ensures Find(doc, AuthorSel).Some? ==> r.author == Find(doc, AuthorSel).value.text
    ensures Find(doc, TimeSel).Some? && "datetime" in Find(doc, TimeSel).value.attrs ==>
      r.publishedAt == Find(doc, TimeSel).value.attrs["datetime"]
    ensures Find(doc, TimeSel).Some? && "datetime" !in Find(doc, TimeSel).value.attrs ==> r.publishedAt == ""
    ensures r.tags == Join(Texts(FindAll(doc, TagSel)))
    // counters are 0 unless the first counter element's text is all digits
    ensures r.likesCount != 0 ==>
      Find(doc, LikesSel).Some? && IsDigitString(Find(doc, LikesSel).value.text)
    ensures r.commentsCount != 0 ==>
      Find(doc, CommentsSel).Some? && IsDigitString(Find(doc, CommentsSel).value.text)
    // and an all-digit counter text gives its value
    ensures Find(doc, LikesSel).Some? && IsDigitString(Find(doc, LikesSel).value.text) ==>
      r.likesCount == Value(Find(doc, LikesSel).value.text)
    ensures Find(doc, CommentsSel).Some? && IsDigitString(Find(doc, CommentsSel).value.text) ==>
      r.commentsCount == Value(Find(doc, CommentsSel).value.text)
    // structural counts are the sizes of the match lists
    ensures r.codeSnippetsCount == |FindAll(doc, CodeSel)|
    ensures r.imagesCount == |FindAll(doc, ImageSel)|
    ensures r.numH2 == |FindAll(doc, H2Sel)| && r.numH3 == |FindAll(doc, H3Sel)|
    ensures r.numLists == |FindAll(doc, ListSel)|
    ensures r.numLinks == |FindAll(doc, LinkSel)|
    // every tag badge is a link, so it is counted among the links
    ensures r.numLinks >= |FindAll(doc, TagSel)|
    // the text features are those of the extracted body
    ensures var f := ComputeTextFeatures(r.body, nlp);
      r.numWords == f.numWords && r.numSentences == f.numSentences &&
      r.avgSentenceLength == f.avgSentenceLength &&
      r.lexicalDiversity == f.lexicalDiversity && r.readabilityScore == f.readability
  {
    var title := TextOr(Find(doc, TitleSel));
    var body := match Find(doc, BodySel) case Some(b) => b.spacedText case None => "";
    var f := ComputeTextFeatures(body, nlp);
    var tags := Texts(FindAll(doc, TagSel));
    FindAllNarrower(doc, TagSel, LinkSel);
    ArticleRecord(
      url, title, body, Join(tags), TextOr(Find(doc, AuthorSel)), PublishedAt(doc),
      CounterOf(Find(doc, LikesSel)), CounterOf(Find(doc, CommentsSel)),
      |FindAll(doc, CodeSel)|, |FindAll(doc, ImageSel)|,
      f.numWords, f.numSentences, f.avgSentenceLength, f.lexicalDiversity, f.readability,
      |FindAll(doc, H2Sel)|, |FindAll(doc, H3Sel)|, |FindAll(doc, ListSel)|,
      |FindAll(doc, LinkSel)|)
  }

  /** `scrape_article(url)`: `page` is what fetching and parsing the URL
      gave, None when that raised (network error, bad status, unparsable
      page); such a URL yields no record. */
  function Scrape(url: Url, page: Option<Document>, nlp: Nlp): (r: Option<ArticleRecord>)
    ensures r.Some? <==> page.Some?
    ensures r.Some? ==> r.value.url == url
  {
    match page
    case Some(doc) => Some(ExtractRecord(url, doc, nlp))
    case None => None
  }

  /** A page with none of the optional elements still yields a record, with
      "" for every text field and 0 for both counters. */
  lemma MissingFieldsDefault(url: Url, doc: Document, nlp: Nlp)
    requires forall i :: 0 <= i < |doc| ==>
      && !Matches(doc[i], TitleSel) && !Matches(doc[i], BodySel) && !Matches(doc[i], TagSel)
      && !Matches(doc[i], AuthorSel) && !Matches(doc[i], TimeSel)
      && !Matches(doc[i], LikesSel) && !Matches(doc[i], CommentsSel)
    ensures var r := ExtractRecord(url, doc, nlp);
      r.title == "" && r.body == "" && r.tags == "" && r.author == "" && r.publishedAt == "" &&
      r.likesCount == 0 && r.commentsCount == 0 &&
      r.numWords == |nlp.words("")| && r.numSentences == |nlp.sentences("")|
  {
    FindIsFirstMatch(doc, TitleSel);
    FindIsFirstMatch(doc, BodySel);
    FindIsFirstMatch(doc, AuthorSel);
    FindIsFirstMatch(doc, TimeSel);
    FindIsFirstMatch(doc, LikesSel);
    FindIsFirstMatch(doc, CommentsSel);
    FindIsFirstMatch(doc, TagSel);
  }

  /** Each counter is the number its element shows: a likes button or a
      comment-count link whose text is `str(n)`, or `str(n)` with leading
      zeros, gives `n`. */
  lemma CounterReadsDigits(url: Url, doc: Document, nlp: Nlp, zeros: string, n: nat)
    requires forall i :: 0 <= i < |zeros| ==> zeros[i] == '0'
    ensures Find(doc, LikesSel).Some? && Find(doc, LikesSel).value.text == zeros + Show(n) ==>
      ExtractRecord(url, doc, nlp).likesCount == n
    ensures Find(doc, CommentsSel).Some? && Find(doc, CommentsSel).value.text == zeros + Show(n) ==>
      ExtractRecord(url, doc, nlp).commentsCount == n
  {
    DigitsOrZeroOfShow(n);
    DigitsOrZeroLeadingZeros(zeros, Show(n));
  }

  /** The tags column lists the texts of the tag badges in page order: a
      reader that splits it at ", " recovers them. */
  lemma TagsRoundTrip(url: Url, doc: Document, nlp: Nlp)
    requires FindAll(doc, TagSel) != []
    requires forall e :: e in FindAll(doc, TagSel) ==> !HasSeparator(e.text)
    ensures Split(ExtractRecord(url, doc, nlp).tags) == Texts(FindAll(doc, TagSel))
  {
    var tags := Texts(FindAll(doc, TagSel));
    assert forall i :: 0 <= i < |tags| ==> tags[i] == FindAll(doc, TagSel)[i].text;
    SplitJoin(tags);
  }
}
