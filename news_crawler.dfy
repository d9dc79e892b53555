/**
 * NewsCrawler: the query parameters of the two News API calls, the mapping of
 * API articles to candidate records, the RSS truncation, and the validation
 * tail of fetch_with_jina. The HTTP calls themselves are inputs: an `ApiReply`
 * for the News API and a `Transport` for the extraction proxy.
 */
module NewsCrawler {
  import opened Results
  import opened PyText
  import opened PyValue
  import opened ContentFilter
  import JinaFetcher

  /** A candidate article: the dict built for each API article, with exactly these six keys. */
  datatype Candidate = Candidate(
    title: Option<string>,
    url: Option<string>,
    description: Option<string>,
    content: Option<string>,
    source: Option<string>,
    publishedAt: Option<string>)

  /** The News API call: it raised (network, HTTP status, undecodable body), or gave this JSON. */
  datatype ApiReply = ApiFailed | ApiBody(data: Value)

  /** The parameters of the /v2/everything request. */
  function NewsParams(query: string, language: string, pageSize: int, fromDate: string, toDate: string, apiKey: Option<string>): (p: map<string, Value>)
    ensures p.Keys == {"q", "from", "to", "sortBy", "pageSize", "apiKey"} + (if language != "" then {"language"} else {})
    ensures "language" in p <==> language != ""
    ensures "language" in p ==> p["language"] == Str(language)
    ensures p["q"] == Str(query) && p["pageSize"] == Int(pageSize) && p["sortBy"] == Str("publishedAt")
    ensures p["from"] == Str(fromDate) && p["to"] == Str(toDate) && p["apiKey"] == FromOption(apiKey)
  {
    var base := map[
      "q" := Str(query), "from" := Str(fromDate), "to" := Str(toDate),
      "sortBy" := Str("publishedAt"), "pageSize" := Int(pageSize), "apiKey" := FromOption(apiKey)];
    if language != "" then base["language" := Str(language)] else base
  }

  /** The parameters of the /v2/top-headlines request. */
  function HeadlinesParams(country: string, category: Value, pageSize: int, apiKey: Option<string>): (p: map<string, Value>)
    ensures p.Keys == {"country", "pageSize", "apiKey"} + (if Truthy(category) then {"category"} else {})
    ensures "category" in p <==> Truthy(category)
    ensures "category" in p ==> p["category"] == category
    ensures p["country"] == Str(country) && p["pageSize"] == Int(pageSize) && p["apiKey"] == FromOption(apiKey)
  {
    var base := map["country" := Str(country), "pageSize" := Int(pageSize), "apiKey" := FromOption(apiKey)];
    if Truthy(category) then base["category" := category] else base
  }

  /**
   * One API article as a candidate. None where the Python code raises: the
   * article is not a dict, or its `source` is present but not a dict.
   * Non-string JSON values in the string fields read as None.
   */
  function ToCandidate(article: Value): Option<Candidate>
  {
    if !article.Obj? then None
    else
      var a := article.fields;
      var src := Get(a, "source", Obj(map[]));
      if !src.Obj? then None
      else Some(Candidate(
        AsOption(Get(a, "title", Null)),
        AsOption(Get(a, "url", Null)),
        AsOption(Get(a, "description", Null)),
        AsOption(Get(a, "content", Null)),
        AsOption(Get(src.fields, "name", Null)),
        AsOption(Get(a, "publishedAt", Null))))
  }

  /** The list loop: all articles converted in order, or None once one raises. */
  function ConvertAll(items: seq<Value>): Option<seq<Candidate>>
    decreases |items|
  {
    if items == [] then Some([])
    else
      match ConvertAll(items[..|items| - 1])
      case None => None
      case Some(cs) =>
        match ToCandidate(items[|items| - 1])
        case None => None
        case Some(c) => Some(cs + [c])
  }

  /**
   * Conversion is one-to-one and in order, and it fails exactly when some
   * article cannot be converted.
   */
  lemma {:induction false} ConvertAllShape(items: seq<Value>)
    ensures ConvertAll(items).Some? <==> forall i :: 0 <= i < |items| ==> ToCandidate(items[i]).Some?
    ensures ConvertAll(items).Some? ==>
      |ConvertAll(items).value| == |items|
      && forall i :: 0 <= i < |items| ==> ToCandidate(items[i]) == Some(ConvertAll(items).value[i])
    decreases |items|
  {
    if items != [] {
      var init := items[..|items| - 1];
      ConvertAllShape(init);
      assert forall i :: 0 <= i < |init| ==> items[i] == init[i];
    }
  }

  /**
   * What fetch_news and fetch_top_headlines return for the API's answer: the
   * converted `articles` list, and [] on any failure. A missing `articles` key
   * reads as []; a non-list value either iterates nothing or raises, so it gives
   * [] as well.
   */
  function ArticlesOf(reply: ApiReply): seq<Candidate>
  {
    if !reply.ApiBody? || !reply.data.Obj? then []
    else
      var raw := Get(reply.data.fields, "articles", List([]));
      if !raw.List? then []
      else match ConvertAll(raw.items)
        case None => []
        case Some(cs) => cs
  }

  /** The append loop shared by fetch_news and fetch_top_headlines. */
  method MapArticles(reply: ApiReply) returns (articles: seq<Candidate>)
    ensures articles == ArticlesOf(reply)
    ensures reply.ApiFailed? ==> articles == []
  {
    if !reply.ApiBody? || !reply.data.Obj? {
      return [];
    }
    var raw := Get(reply.data.fields, "articles", List([]));
    if !raw.List? {
      return [];
    }
    var items := raw.items;
    articles := [];
    var i := 0;
    while i < |items|
      invariant 0 <= i <= |items|
      invariant ConvertAll(items[..i]) == Some(articles)
    {
      assert items[..i + 1][..i] == items[..i];
      var c := ToCandidate(items[i]);
      if c.None? {
        ConvertAllFailsFrom(items, i + 1);
        return [];
      }
      articles := articles + [c.value];
      i := i + 1;
    }
    assert items[..|items|] == items;
  }

  /** Once a prefix fails to convert, the whole list does. */
  lemma {:induction false} ConvertAllFailsFrom(items: seq<Value>, n: nat)
    requires n <= |items| && ConvertAll(items[..n]).None?
    ensures ConvertAll(items).None?
    decreases |items| - n
  {
    if n < |items| {
      assert items[..n + 1][..n] == items[..n];
      ConvertAllFailsFrom(items, n + 1);
    } else {
      assert items[..n] == items;
    }
  }

  /** An RSS entry: the four-key dict built by fetch_rss_feed. */
  datatype FeedItem = FeedItem(title: Option<string>, url: Option<string>, description: Option<string>, publishedAt: Option<string>)

  function ToFeedItem(entry: map<string, Value>): FeedItem
  {
    FeedItem(
      AsOption(Get(entry, "title", Null)),
      AsOption(Get(entry, "link", Null)),
      AsOption(Get(entry, "summary", Null)),
      AsOption(Get(entry, "published", Null)))
  }

  /** fetch_rss_feed over the parsed feed's entries (None when parsing raised). */
  method FetchRssFeed(entries: Option<seq<map<string, Value>>>) returns (articles: seq<FeedItem>)
    ensures entries.None? ==> articles == []
    ensures entries.Some? ==>
      |articles| == (if |entries.value| < 10 then |entries.value| else 10)
      && forall i :: 0 <= i < |articles| ==> articles[i] == ToFeedItem(entries.value[i])
    ensures |articles| <= 10
  {
    if entries.None? {
      return [];
    }
    var first := PyTake(entries.value, 10);
    articles := [];
    var i := 0;
    while i < |first|
      invariant 0 <= i <= |first|
      invariant |articles| == i
      invariant forall k :: 0 <= k < i ==> articles[k] == ToFeedItem(first[k])
    {
      articles := articles + [ToFeedItem(first[i])];
      i := i + 1;
    }
  }

  /** Stripped bodies shorter than this that mention Yahoo's portal without "新聞" are its home page. */
  const YahooHomeLimit: nat := 500

  predicate IsYahooHomepage(content: string)
  {
    Contains(Lower(content), "yahoo奇摩") && !Contains(content, "新聞") && |content| < YahooHomeLimit
  }

  /** What fetch_with_jina returns for the proxy's answer. */
  function JinaResult(t: Transport): (r: string)
    ensures r != "" <==>
      t.Reply? && !IsHttpError(t.status) && !IsBlockedNotice(t)
      && |Strip(t.body)| >= MinLength && !HasIndicator(Lower(Strip(t.body)))
      && !IsYahooHomepage(Strip(t.body))
    ensures r != "" ==> r == Strip(t.body) && |r| >= MinLength
  {
    match t
    case Reply(status, _, body, _) =>
      if IsHttpError(status) || IsBlockedNotice(t) then ""
      else
        var content := Strip(body);
        if |content| < MinLength || HasIndicator(Lower(content)) || IsYahooHomepage(content) then ""
        else content
    case _ => ""
  }

  method FetchWithJina(url: string, net: string -> Transport) returns (content: string)
    ensures content == JinaResult(net(url))
  {
    var t := net(url);
    if !t.Reply? || IsHttpError(t.status) {
      return "";
    }
    if StartsWith(t.contentType, "application/json") && t.jsonCode == Some(451) {
      return "";
    }
    content := Strip(t.body);
    if |content| < MinLength {
      return "";
    }
    var invalid := ScanIndicators(Lower(content));
    if invalid {
      return "";
    }
    if Contains(Lower(content), "yahoo奇摩") && !Contains(content, "新聞") && |content| < YahooHomeLimit {
      return "";
    }
  }

  /**
   * The crawler's check is the optimised fetcher's thread-pool check plus the
   * Yahoo home-page rule: whatever the crawler accepts the fetcher accepts
   * unchanged, and they differ only on Yahoo home pages.
   */
  lemma CrawlerRefinesFetcher(t: Transport)
    ensures JinaResult(t) != "" ==> JinaFetcher.ThreadPoolAccept(t) == JinaResult(t)
    ensures JinaResult(t) != JinaFetcher.ThreadPoolAccept(t) ==>
      JinaResult(t) == "" && IsYahooHomepage(JinaFetcher.ThreadPoolAccept(t))
  {
  }
}
