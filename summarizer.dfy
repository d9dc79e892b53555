/**
 * The summariser: its main-content extractor (cap 1500, raw-text fallback),
 * the prompt it sends to the language model, the truncation fallback used
 * when there is no model client or the call fails, and the batch loop that
 * adds a `summary` to every article with some text.
 */
module Summarizer {
  import opened Results
  import opened PyText
  import opened PyValue
  import opened MainContent

  /** The extractor stops collecting once the kept lines join to more than this. */
  const ExtractCap: nat := 1500

  /** Without any kept line the extractor returns this many leading characters. */
  const RawFallbackLength: nat := 1000

  /** At most this much cleaned content goes into the prompt. */
  const PromptContentLimit: nat := 2000

  /** `_extract_main_content(content)`. */
  function CleanContent(content: string): string
  {
    var kept := MainLines(content, ExtractCap);
    if kept != [] then Join(kept, " ") else PyTake(content, RawFallbackLength)
  }

  method ExtractMainContent(content: string) returns (r: string)
    ensures r == CleanContent(content)
  {
    var kept := CollectMainLines(content, ExtractCap);
    if kept != [] {
      r := Join(kept, " ");
    } else {
      r := PyTake(content, RawFallbackLength);
    }
  }

  /**
   * Without a marker line, or when no line after it passes the filter, the
   * cleaned content is the raw content's first 1000 characters.
   */
  lemma CleanContentRaw(content: string)
    ensures MainLines(content, ExtractCap) == [] ==>
      CleanContent(content) <= content && |CleanContent(content)| == if |content| < RawFallbackLength then |content| else RawFallbackLength
  {
  }

  /**
   * Otherwise it is the kept lines joined by spaces, and every kept line
   * passes the filter.
   */
  lemma CleanContentKept(content: string)
    ensures MainLines(content, ExtractCap) != [] ==>
      CleanContent(content) == Join(MainLines(content, ExtractCap), " ")
      && forall m :: 0 <= m < |MainLines(content, ExtractCap)| ==> KeepLine(MainLines(content, ExtractCap)[m])
  {
    MainLinesPass(content, ExtractCap);
  }

  /**
   * The summary used without a model client or when the call fails: the content
   * itself when it fits, otherwise its first `maxLength` characters and "...".
   */
  function Fallback(content: string, maxLength: int): (r: string)
    ensures |content| <= maxLength ==> r == content
    ensures r == content || (|r| >= 3 && EndsWith(r, "...") && r[..|r| - 3] <= content)
    ensures 0 <= maxLength ==> |r| <= maxLength + 3
    ensures 0 <= maxLength < |content| ==> |r| == maxLength + 3 && r[..maxLength] == content[..maxLength]
  {
    if |content| > maxLength then
      var head := PyTake(content, maxLength);
      assert (head + "...")[..|head|] == head;
      head + "..."
    else content
  }

  /** The first instruction line up to the length limit. */
  function HeadStart(indent: string): string
  {
    "\n" + indent + "請將以下新聞內容摘要成 "
  }

  /** The instructions after the length limit, up to the title. */
  function HeadRest(indent: string): string
  {
    " 字以內的中文摘要。\n"
    + indent + "摘要應該：\n"
    + indent + "1. 保留最重要的資訊\n"
    + indent + "2. 使用簡潔易懂的語言\n"
    + indent + "3. 適合語音播報\n"
    + indent + "4. 保持客觀中立的語氣\n"
    + indent + "5. 忽略網站導航、廣告和技術性元數據\n"
    + indent + "6. 只回傳摘要內容，不要其他解釋\n"
    + indent + "\n"
    + indent + "新聞標題："
  }

  function PromptMiddle(indent: string): string { "\n" + indent + "新聞內容：" }

  function PromptTail(indent: string): string { "\n" + indent + "\n" + indent + "請提供摘要：\n" + indent }

  /** The pieces of the prompt; every line is indented by twelve spaces. */
  function PromptParts(title: string, clean: string, maxLength: int): seq<string>
  {
    var indent := "            ";
    [HeadStart(indent), IntToString(maxLength), HeadRest(indent), title,
     PromptMiddle(indent), PyTake(clean, PromptContentLimit), PromptTail(indent)]
  }

  /** The prompt built from the title and the cleaned content. */
  function Prompt(title: string, clean: string, maxLength: int): string
  {
    Concat(PromptParts(title, clean, maxLength))
  }

  /** The prompt carries the length limit, the title, and at most 2000 characters of the cleaned content. */
  lemma PromptEmbeds(title: string, clean: string, maxLength: int)
    ensures Contains(Prompt(title, clean, maxLength), title)
    ensures Contains(Prompt(title, clean, maxLength), PyTake(clean, PromptContentLimit))
    ensures Contains(Prompt(title, clean, maxLength), IntToString(maxLength))
    ensures |PyTake(clean, PromptContentLimit)| <= PromptContentLimit
    ensures PyTake(clean, PromptContentLimit) <= clean
  {
    var parts := PromptParts(title, clean, maxLength);
    ContainsPiece(parts, 1);
    ContainsPiece(parts, 3);
    ContainsPiece(parts, 5);
  }

  /**
   * The model client: absent (no API key, or initialisation failed), or a
   * function from prompt to answer text, None where the call raises.
   */
  datatype Generator = NoClient | Client(respond: string -> Option<string>)

  /** `generate_summary(content, title, max_length)`. */
  function SummaryOf(gen: Generator, content: string, title: string, maxLength: int): string
  {
    match gen
    case NoClient => Fallback(content, maxLength)
    case Client(respond) =>
      match respond(Prompt(title, CleanContent(content), maxLength))
      case None => Fallback(content, maxLength)
      case Some(answer) => Strip(answer)
  }

  method GenerateSummary(gen: Generator, content: string, title: string, maxLength: int) returns (summary: string)
    ensures summary == SummaryOf(gen, content, title, maxLength)
  {
    match gen {
      case NoClient =>
        summary := Fallback(content, maxLength);
      case Client(respond) =>
        var clean := ExtractMainContent(content);
        match respond(Prompt(title, clean, maxLength)) {
          case None =>
            summary := Fallback(content, maxLength);
          case Some(answer) =>
            summary := Strip(answer);
        }
    }
  }

  /** The batch loop's default summary length. */
  const BatchMaxLength: int := 200

  /** `article.get('content') or article.get('description', '')`. */
  function ContentOf(article: map<string, Value>): Value
  {
    Or(Get(article, "content", Null), Get(article, "description", Str("")))
  }

  predicate HasContent(article: map<string, Value>)
  {
    Truthy(ContentOf(article))
  }

  /**
   * The summary step of the batch loop: `generate_summary(content, title)`
   * with its default length.
   */
  function BatchSummary(gen: Generator): (string, string) -> string
  {
    (content, title) => SummaryOf(gen, content, title, BatchMaxLength)
  }

  /**
   * The article with its `summary` key set by `summarize`, applied to the
   * article's text and title. The batch lemmas below hold for every summary
   * step; the loop uses `BatchSummary(gen)`.
   */
  function WithSummary(summarize: (string, string) -> string, article: map<string, Value>): (r: map<string, Value>)
    ensures r.Keys == article.Keys + {"summary"}
    ensures forall k :: k in article && k != "summary" ==> r[k] == article[k]
    ensures ContentOf(r) == ContentOf(article)
  {
    var summary := summarize(Text(ContentOf(article)), Text(Get(article, "title", Str(""))));
    article["summary" := Str(summary)]
  }

  /** An input article after the loop has passed it. */
  function Updated(summarize: (string, string) -> string, article: map<string, Value>): map<string, Value>
  {
    if HasContent(article) then WithSummary(summarize, article) else article
  }

  /** The articles `batch_summarize` returns: those with content, summarised, in order. */
  function Summarized(summarize: (string, string) -> string, articles: seq<map<string, Value>>): (r: seq<map<string, Value>>)
    ensures |r| <= |articles|
    decreases |articles|
  {
    if articles == [] then []
    else
      var last := articles[|articles| - 1];
      Summarized(summarize, articles[..|articles| - 1]) + (if HasContent(last) then [WithSummary(summarize, last)] else [])
  }

  /** Every returned article is a summarised input article that has content. */
  lemma {:induction false} SummarizedSound(summarize: (string, string) -> string, articles: seq<map<string, Value>>)
    ensures forall x :: x in Summarized(summarize, articles) ==>
      "summary" in x && HasContent(x)
      && exists k :: 0 <= k < |articles| && HasContent(articles[k]) && x == WithSummary(summarize, articles[k])
    decreases |articles|
  {
    if articles != [] {
      var init := articles[..|articles| - 1];
      var last := articles[|articles| - 1];
      SummarizedSound(summarize, init);
      assert Summarized(summarize, articles) == Summarized(summarize, init) + (if HasContent(last) then [WithSummary(summarize, last)] else []);
      forall x | x in Summarized(summarize, articles)
        ensures "summary" in x && HasContent(x)
          && exists k :: 0 <= k < |articles| && HasContent(articles[k]) && x == WithSummary(summarize, articles[k])
      {
        if x in Summarized(summarize, init) {
          var k :| 0 <= k < |init| && HasContent(init[k]) && x == WithSummary(summarize, init[k]);
          assert articles[k] == init[k];
        } else {
          assert x == WithSummary(summarize, last);
        }
      }
    }
  }

  /** Every input article that has content comes back summarised. */
  lemma {:induction false} SummarizedComplete(summarize: (string, string) -> string, articles: seq<map<string, Value>>, k: nat)
    requires k < |articles| && HasContent(articles[k])
    ensures WithSummary(summarize, articles[k]) in Summarized(summarize, articles)
    decreases |articles|
  {
    var init := articles[..|articles| - 1];
    var last := articles[|articles| - 1];
    var tail := if HasContent(last) then [WithSummary(summarize, last)] else [];
    assert Summarized(summarize, articles) == Summarized(summarize, init) + tail;
    if k < |init| {
      assert articles[k] == init[k];
      SummarizedComplete(summarize, init, k);
    } else {
      assert articles[k] == last;
      assert WithSummary(summarize, last) in tail;
    }
  }

  /** One more article: it is added, summarised, exactly when it has content. */
  lemma SummarizedStep(summarize: (string, string) -> string, articles: seq<map<string, Value>>, i: nat)
    requires i < |articles|
    ensures Summarized(summarize, articles[..i + 1]) ==
      Summarized(summarize, articles[..i]) + (if HasContent(articles[i]) then [WithSummary(summarize, articles[i])] else [])
  {
    assert articles[..i + 1][..i] == articles[..i];
  }

  /** The loop body of `batch_summarize` for one article. */
  method SummarizeArticle(gen: Generator, article: map<string, Value>) returns (r: map<string, Value>, has: bool)
    ensures has == HasContent(article)
    ensures r == Updated(BatchSummary(gen), article)
  {
    var content := Or(Get(article, "content", Null), Get(article, "description", Str("")));
    var title := Get(article, "title", Str(""));
    has := Truthy(content);
    r := article;
    if has {
      var summary := GenerateSummary(gen, Text(content), Text(title), BatchMaxLength);
      r := article["summary" := Str(summary)];
    }
  }

  /**
   * `batch_summarize`: every input article with content gets its `summary` in
   * place (`updated`), and the summarised ones are returned in order.
   */
  method BatchSummarize(gen: Generator, articles: seq<map<string, Value>>)
    returns (updated: seq<map<string, Value>>, summarized: seq<map<string, Value>>)
    ensures |updated| == |articles|
    ensures forall k :: 0 <= k < |articles| ==> updated[k] == Updated(BatchSummary(gen), articles[k])
    ensures summarized == Summarized(BatchSummary(gen), articles)
  {
    updated := [];
    summarized := [];
    var i := 0;
    while i < |articles|
      invariant 0 <= i <= |articles| && |updated| == i
      invariant forall k :: 0 <= k < i ==> updated[k] == Updated(BatchSummary(gen), articles[k])
      invariant summarized == Summarized(BatchSummary(gen), articles[..i])
    {
      SummarizedStep(BatchSummary(gen), articles, i);
      var article, has := SummarizeArticle(gen, articles[i]);
      updated := updated + [article];
      if has {
        assert article == WithSummary(BatchSummary(gen), articles[i]);
        summarized := summarized + [article];
      }
      i := i + 1;
    }
    assert articles[..|articles|] == articles;
  }
}
