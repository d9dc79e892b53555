/**
 * The news routes: their own main-content extractor (cap 1000, "" when nothing
 * survives), the extractive `create_smart_summary`, and the per-article loop
 * of `fetch_and_process_news` and `fetch_top_headlines` over the news
 * collection.
 */
module NewsRoutes {
  import opened Results
  import opened PyText
  import opened PyValue
  import opened Picking
  import opened MainContent
  import opened NewsStore
  import opened NewsModel
  import NewsCrawler
  import Summarizer
  import ContentFilter

  /** The route extractor stops collecting once the kept lines join to more than this. */
  const RouteCap: nat := 1000

  /** `extract_main_content(content)` of the routes module. */
  function RouteMainContent(content: string): string
  {
    Join(MainLines(content, RouteCap), " ")
  }

  method ExtractRouteContent(content: string) returns (r: string)
    ensures r == RouteMainContent(content)
  {
    var kept := CollectMainLines(content, RouteCap);
    r := Join(kept, " ");
  }

  predicate NonEmpty(s: string) { s != "" }

  /** The route extractor gives "" exactly when no line survives (the summariser's would fall back to raw text). */
  lemma RouteMainContentEmpty(content: string)
    ensures RouteMainContent(content) == "" <==> MainLines(content, RouteCap) == []
  {
    var lines := Split(content, {'\n'});
    if FirstMarker(lines, 0).Some? {
      var rest := lines[FirstMarker(lines, 0).value + 1..];
      KeepRawLineNonEmpty();
      PickUntilAll(rest, KeepRawLine, " ", RouteCap, NonEmpty);
      var kept := PickUntil(rest, KeepRawLine, " ", RouteCap);
      if kept != [] {
        assert NonEmpty(kept[0]);
        assert |Join(kept, " ")| >= |kept[0]|;
      }
    }
  }

  /** With the smaller cap the route extractor keeps a prefix of the lines the summariser's keeps. */
  lemma RouteLinesPrefixOfSummarizer(content: string)
    ensures MainLines(content, RouteCap) <= MainLines(content, Summarizer.ExtractCap)
  {
    var lines := Split(content, {'\n'});
    if FirstMarker(lines, 0).Some? {
      var rest := lines[FirstMarker(lines, 0).value + 1..];
      PickUntilMonotone(rest, KeepRawLine, " ", RouteCap, Summarizer.ExtractCap);
    }
  }

  /** Substrings of Jina's metadata and consent chrome that the fallback cleaner drops. */
  const MetaPatterns: seq<string> := [
    "Title:", "URL Source:", "Markdown Content:", "Published Time:",
    "===", "---", "Warning:", "collectConsent", "Yahoo奇摩",
    "Your Privacy Choices", "If you are a resident of", "Privacy Policy",
    "Cookie Policy", "Terms of Service", "Subscribe", "Newsletter"
  ]

  /** A stripped line the fallback cleaner keeps. */
  predicate CleanLine(line: string)
  {
    !ContainsAny(line, MetaPatterns) && |line| >= 10 && !(AsciiNav(line) && |line| > 20)
  }

  predicate CleanRawLine(line: string)
  {
    CleanLine(Strip(line))
  }

  /** The fallback cleaner: every line that passes, stripped, joined by spaces. */
  function FallbackCleaned(content: string): string
  {
    Join(Picked(Split(content, {'\n'}), CleanRawLine), " ")
  }

  /** Every line the fallback cleaner keeps is non-empty, free of metadata patterns, at least 10 long, and not ASCII navigation longer than 20. */
  lemma FallbackCleanedLines(content: string)
    ensures forall m :: 0 <= m < |Picked(Split(content, {'\n'}), CleanRawLine)| ==>
      CleanLine(Picked(Split(content, {'\n'}), CleanRawLine)[m])
  {
    PickedAll(Split(content, {'\n'}), CleanRawLine, CleanLine);
  }

  /** A piece the cleaner accepts does not strip to nothing. */
  lemma CleanRawLineNonEmpty()
    ensures forall x :: CleanRawLine(x) ==> Strip(x) != ""
  {
  }

  method CleanFallback(content: string) returns (r: string)
    ensures r == FallbackCleaned(content)
  {
    CleanRawLineNonEmpty();
    var cleaned := CollectAll(Split(content, {'\n'}), CleanRawLine);
    r := Join(cleaned, " ");
  }

  /** The words that make a sentence a key sentence. */
  const Keywords: seq<string> := ["台灣", "關稅", "川普", "新聞", "發表", "宣布", "表示", "指出", "報導", "文化", "教學", "海外"]

  /** What the summary says when there is too little text. */
  const TitleNotice: string := " - 詳細內容請點擊原文連結查看。"

  /** Below this length the text is not worth summarising. */
  const ShortText: nat := 50

  /** A piece longer than 15 once stripped that mentions a keyword. */
  predicate KeySentence(s: string)
  {
    |Strip(s)| > 15 && ContainsAny(s, Keywords)
  }

  /** The text the smart summary works on: the main content, or the cleaned text when that is short. */
  function SmartMain(content: string): string
  {
    var main := RouteMainContent(content);
    if |main| < ShortText then FallbackCleaned(content) else main
  }

  /** `re.split(r'[。！？]', text)`. */
  function Sentences(text: string): seq<string>
  {
    Split(text, {'。', '！', '？'})
  }

  /** The key sentences, stripped, collected until they join (by 。) to more than `maxLength`. */
  function KeySentences(text: string, maxLength: nat): seq<string>
  {
    PickUntil(Sentences(text), KeySentence, "。", maxLength)
  }

  /** The text with 。 appended unless it already ends with one. */
  function EnsureFullStop(s: string): (r: string)
    ensures EndsWith(r, "。")
    ensures r == s || r == s + "。"
  {
    if EndsWith(s, "。") then s
    else
      EndsWithSuffix(s, "。", "。");
      s + "。"
  }

  /** The summary built from the working text. */
  function SummaryFromText(text: string, title: string, maxLength: nat): string
  {
    if |text| < ShortText then title + TitleNotice
    else
      var key := KeySentences(text, maxLength);
      if key != [] then EnsureFullStop(Join(PyTake(key, 2), "。"))
      else
        var lead := Strip(Join(PyTake(Sentences(text), 2), "。"));
        if lead != "" then EnsureFullStop(lead) else PyTake(text, maxLength) + "..."
  }

  /** `create_smart_summary(content, title, max_length)`. */
  function SmartSummary(content: string, title: string, maxLength: nat): string
  {
    SummaryFromText(SmartMain(content), title, maxLength)
  }

  /** The summary built from any working text ends with a full stop 。, or with "..." when it truncates. */
  lemma SummaryFromTextEnds(text: string, title: string, maxLength: nat)
    ensures EndsWith(SummaryFromText(text, title, maxLength), "。") || EndsWith(SummaryFromText(text, title, maxLength), "...")
  {
    if |text| < ShortText {
      EndsWithSuffix(title, TitleNotice, "。");
    } else if KeySentences(text, maxLength) == [] && Strip(Join(PyTake(Sentences(text), 2), "。")) == "" {
      EndsWithSuffix(PyTake(text, maxLength), "...", "...");
    }
  }

  /** The smart summary always ends with a full stop 。, or with "..." when it truncates. */
  lemma SmartSummaryEnds(content: string, title: string, maxLength: nat)
    ensures EndsWith(SmartSummary(content, title, maxLength), "。") || EndsWith(SmartSummary(content, title, maxLength), "...")
  {
    SummaryFromTextEnds(SmartMain(content), title, maxLength);
  }

  /**
   * Each key sentence is a piece of the text, stripped, that is longer than 15
   * and mentions a keyword; the summary joins at most the first two.
   */
  lemma KeySentencesFrom(text: string, maxLength: nat)
    ensures forall m :: 0 <= m < |KeySentences(text, maxLength)| ==>
      |KeySentences(text, maxLength)[m]| > 15
      && (exists k :: 0 <= k < |Sentences(text)| && ContainsAny(Sentences(text)[k], Keywords)
            && KeySentences(text, maxLength)[m] == Strip(Sentences(text)[k]))
  {
    var xs := Sentences(text);
    var key := KeySentences(text, maxLength);
    PickUntilFrom(xs, KeySentence, "。", maxLength);
    forall m | 0 <= m < |key|
      ensures |key[m]| > 15
        && (exists k :: 0 <= k < |xs| && ContainsAny(xs[k], Keywords) && key[m] == Strip(xs[k]))
    {
      var k :| 0 <= k < |xs| && KeySentence(xs[k]) && key[m] == Strip(xs[k]);
    }
  }

  /** The method form of the summary built from the working text. */
  method SummarizeText(text: string, title: string, maxLength: nat) returns (result: string)
    ensures result == SummaryFromText(text, title, maxLength)
  {
    if |text| < ShortText {
      return title + TitleNotice;
    }
    var sentences := Split(text, {'。', '！', '？'});
    var key := CollectUntilOnAppend(sentences, KeySentence, "。", maxLength);
    if key != [] {
      result := EnsureFullStop(Join(PyTake(key, 2), "。"));
    } else {
      result := Strip(Join(PyTake(sentences, 2), "。"));
      if result != "" {
        result := EnsureFullStop(result);
      } else {
        result := PyTake(text, maxLength) + "...";
      }
    }
  }

  method CreateSmartSummary(content: string, title: string, maxLength: nat) returns (summary: string)
    ensures summary == SmartSummary(content, title, maxLength)
    ensures |SmartMain(content)| < ShortText ==> summary == title + TitleNotice
  {
    var text := ExtractRouteContent(content);
    if |text| < ShortText {
      text := CleanFallback(content);
    }
    assert text == SmartMain(content);
    summary := SummarizeText(text, title, maxLength);
    if |text| < ShortText {
      assert summary == title + TitleNotice;
    }
  }

  /** The summary length the routes ask for. */
  const RouteSummaryLength: int := 150

  /** `article.get('content') or article.get('description', '')`, with None read as "". */
  function ApiText(c: NewsCrawler.Candidate): string
  {
    if c.content.Some? && c.content.value != "" then c.content.value
    else if c.description.Some? then c.description.value
    else ""
  }

  /** The fetched text, or the API's own text when the fetch gave nothing. */
  function FullContent(fetched: string, c: NewsCrawler.Candidate): (r: string)
    ensures fetched != "" ==> r == fetched
    ensures fetched == "" ==> r == ApiText(c)
  {
    if fetched != "" then fetched else ApiText(c)
  }

  /** `article.get('title', '')` as the summariser receives it: a missing title is None, which prints as "None". */
  function TitleArg(c: NewsCrawler.Candidate): string
  {
    Text(FromOption(c.title))
  }

  /** The document `NewsItem(...).to_dict()` for an article. */
  function ArticleDoc(c: NewsCrawler.Candidate, url: string, full: string, summary: string, now: Timestamp): Doc
  {
    ToDict(NewItem(FromOption(c.title), Str(summary), Str(url), FromOption(c.source), Str(full), now))
  }

  /**
   * What the loop does with one article: the document it inserts, or None
   * when the article has no url, its url is already stored, or its text is
   * 50 characters or shorter.
   */
  function Insertion(docs: seq<Doc>, c: NewsCrawler.Candidate, gen: Summarizer.Generator,
                     net: string -> ContentFilter.Transport, now: Timestamp): Option<Doc>
  {
    if c.url.None? || c.url.value == "" || HasUrl(docs, c.url.value) then None
    else
      var url := c.url.value;
      var full := FullContent(NewsCrawler.JinaResult(net(url)), c);
      if |full| <= ShortText then None
      else Some(ArticleDoc(c, url, full, Summarizer.SummaryOf(gen, full, TitleArg(c), RouteSummaryLength), now))
  }

  /** The collection after the loop has handled `articles`. */
  function RouteDocs(docs: seq<Doc>, articles: seq<NewsCrawler.Candidate>, gen: Summarizer.Generator,
                     net: string -> ContentFilter.Transport, now: Timestamp): seq<Doc>
    decreases |articles|
  {
    if articles == [] then docs
    else
      var prev := RouteDocs(docs, articles[..|articles| - 1], gen, net, now);
      match Insertion(prev, articles[|articles| - 1], gen, net, now)
      case None => prev
      case Some(d) => prev + [Stored(prev, d)]
  }

  /** The loop only appends: the documents already stored are untouched. */
  lemma {:induction false} RouteDocsAppendOnly(docs: seq<Doc>, articles: seq<NewsCrawler.Candidate>, gen: Summarizer.Generator,
                                              net: string -> ContentFilter.Transport, now: Timestamp)
    ensures docs <= RouteDocs(docs, articles, gen, net, now)
    ensures |RouteDocs(docs, articles, gen, net, now)| <= |docs| + |articles|
    decreases |articles|
  {
    if articles != [] {
      RouteDocsAppendOnly(docs, articles[..|articles| - 1], gen, net, now);
    }
  }

  /** The document at `i` has a string url that no earlier document has. */
  predicate FreshUrlAt(r: seq<Doc>, i: nat)
    requires i < |r|
  {
    "url" in r[i] && r[i]["url"].Str? && !HasUrl(r[..i], r[i]["url"].s)
  }

  /** A url is inserted at most once: no new document shares its url with any document before it, old or new. */
  lemma {:induction false} RouteDocsUrlsOnce(docs: seq<Doc>, articles: seq<NewsCrawler.Candidate>, gen: Summarizer.Generator,
                                            net: string -> ContentFilter.Transport, now: Timestamp)
    ensures forall i :: |docs| <= i < |RouteDocs(docs, articles, gen, net, now)| ==>
      FreshUrlAt(RouteDocs(docs, articles, gen, net, now), i)
    decreases |articles|
  {
    if articles != [] {
      var prev := RouteDocs(docs, articles[..|articles| - 1], gen, net, now);
      RouteDocsUrlsOnce(docs, articles[..|articles| - 1], gen, net, now);
      var r: seq<Doc> := RouteDocs(docs, articles, gen, net, now);
      assert prev <= r;
      forall i | |docs| <= i < |r|
        ensures FreshUrlAt(r, i)
      {
        if i < |prev| {
          assert r[..i] == prev[..i];
          assert FreshUrlAt(prev, i);
        } else {
          assert r[..i] == prev;
        }
      }
    }
  }

  /** A new document: more than 50 characters of text, a non-empty url, and the summariser's summary of that text. */
  predicate NewDoc(d: Doc, gen: Summarizer.Generator)
  {
    "original_content" in d && "url" in d && "summary" in d && "title" in d
    && d["original_content"].Str? && |d["original_content"].s| > ShortText
    && d["url"].Str? && d["url"].s != ""
    && d["summary"] == Str(Summarizer.SummaryOf(gen, d["original_content"].s, Text(d["title"]), RouteSummaryLength))
  }

  /** Every document the loop adds is a proper new document. */
  lemma {:induction false} RouteDocsContent(docs: seq<Doc>, articles: seq<NewsCrawler.Candidate>, gen: Summarizer.Generator,
                                           net: string -> ContentFilter.Transport, now: Timestamp)
    ensures forall i :: |docs| <= i < |RouteDocs(docs, articles, gen, net, now)| ==>
      NewDoc(RouteDocs(docs, articles, gen, net, now)[i], gen)
    decreases |articles|
  {
    if articles != [] {
      RouteDocsContent(docs, articles[..|articles| - 1], gen, net, now);
      RouteDocsAppendOnly(docs, articles[..|articles| - 1], gen, net, now);
    }
  }

  /** The loop body for one article. */
  method ProcessArticle(store: Collection, c: NewsCrawler.Candidate, gen: Summarizer.Generator,
                        net: string -> ContentFilter.Transport, now: Timestamp) returns (inserted: bool)
    modifies store
    ensures inserted == Insertion(old(store.docs), c, gen, net, now).Some?
    ensures store.docs == match Insertion(old(store.docs), c, gen, net, now)
      case None => old(store.docs)
      case Some(d) => old(store.docs) + [Stored(old(store.docs), d)]
  {
    match c.url {
      case None => return false;
      case Some(url) =>
        if url == "" {
          return false;
        }
        var existing := store.FindByUrl(url);
        if existing.Some? {
          return false;
        }
        var full := NewsCrawler.FetchWithJina(url, net);
        if full == "" {
          full := ApiText(c);
        }
        if |full| <= ShortText {
          return false;
        }
        var summary := Summarizer.GenerateSummary(gen, full, TitleArg(c), RouteSummaryLength);
        var doc := ArticleDoc(c, url, full, summary, now);
        var _ := store.InsertOne(doc);
        return true;
    }
  }

  /** The per-article loop; `processed` counts the inserts. */
  method ProcessArticles(store: Collection, articles: seq<NewsCrawler.Candidate>, gen: Summarizer.Generator,
                         net: string -> ContentFilter.Transport, now: Timestamp) returns (processed: nat)
    modifies store
    ensures store.docs == RouteDocs(old(store.docs), articles, gen, net, now)
    ensures |store.docs| == |old(store.docs)| + processed
  {
    processed := 0;
    var i := 0;
    while i < |articles|
      invariant 0 <= i <= |articles|
      invariant store.docs == RouteDocs(old(store.docs), articles[..i], gen, net, now)
      invariant |store.docs| == |old(store.docs)| + processed
    {
      assert articles[..i + 1][..i] == articles[..i];
      var inserted := ProcessArticle(store, articles[i], gen, net, now);
      if inserted {
        processed := processed + 1;
      }
      i := i + 1;
    }
    assert articles[..|articles|] == articles;
  }

  /** The reply of the two fetching routes: 404 without articles, else the counts. */
  datatype RouteReply = NoArticles | Processed(processed: nat, totalArticles: nat)

  /** `fetch_and_process_news`: the News API answer is `reply`. */
  method FetchAndProcessNews(store: Collection, reply: NewsCrawler.ApiReply, gen: Summarizer.Generator,
                             net: string -> ContentFilter.Transport, now: Timestamp) returns (r: RouteReply)
    modifies store
    ensures NewsCrawler.ArticlesOf(reply) == [] ==> r == NoArticles && store.docs == old(store.docs)
    ensures NewsCrawler.ArticlesOf(reply) != [] ==>
      store.docs == RouteDocs(old(store.docs), NewsCrawler.ArticlesOf(reply), gen, net, now)
      && r.Processed? && |store.docs| == |old(store.docs)| + r.processed
      && r.totalArticles == |NewsCrawler.ArticlesOf(reply)|
  {
    var articles := NewsCrawler.MapArticles(reply);
    if articles == [] {
      return NoArticles;
    }
    var processed := ProcessArticles(store, articles, gen, net, now);
    r := Processed(processed, |articles|);
  }

  /**
   * `fetch_top_headlines`: the same loop over the keyword search's answer
   * when `useSearch`, or over the top-headlines answer otherwise.
   */
  method FetchTopHeadlines(store: Collection, useSearch: bool, searchReply: NewsCrawler.ApiReply,
                           headlinesReply: NewsCrawler.ApiReply, gen: Summarizer.Generator,
                           net: string -> ContentFilter.Transport, now: Timestamp) returns (r: RouteReply)
    modifies store
    ensures var articles := NewsCrawler.ArticlesOf(if useSearch then searchReply else headlinesReply);
      (articles == [] ==> r == NoArticles && store.docs == old(store.docs))
      && (articles != [] ==>
        store.docs == RouteDocs(old(store.docs), articles, gen, net, now)
        && r.Processed? && |store.docs| == |old(store.docs)| + r.processed && r.totalArticles == |articles|)
  {
    var articles;
    if useSearch {
      articles := NewsCrawler.MapArticles(searchReply);
    } else {
      articles := NewsCrawler.MapArticles(headlinesReply);
    }
    if articles == [] {
      return NoArticles;
    }
    var processed := ProcessArticles(store, articles, gen, net, now);
    r := Processed(processed, |articles|);
  }
}
