/**
 * Background news search: a registry of search tasks (start, status, list,
 * cancel, and the paginated search that starts a task when the stored results
 * do not fill a page), and the worker that runs one search through its stages
 * (fetch the candidates, drop the stored ones, fetch their pages, summarise
 * and store), recording its progress in the task as it goes. The worker runs
 * here to completion once started; the thread it runs on is not modelled.
 */
module AsyncNews {
  import opened Results
  import opened PyText
  import opened PyValue
  import opened NewsStore
  import opened NewsModel
  import NewsCrawler
  import ContentFilter
  import JinaFetcher
  import Summarizer
  import NewsRoutes

  datatype Status =
    | Started
    | FetchingArticles
    | FilteringArticles
    | FetchingContent
    | GeneratingSummaries
    | Completed
    | Failed
    | Cancelled

  /** The status as the task dictionary spells it. */
  function StatusName(s: Status): string
  {
    match s
    case Started => "started"
    case FetchingArticles => "fetching_articles"
    case FilteringArticles => "filtering_articles"
    case FetchingContent => "fetching_content"
    case GeneratingSummaries => "generating_summaries"
    case Completed => "completed"
    case Failed => "error"
    case Cancelled => "cancelled"
  }

  /**
   * A search task's dictionary. `total_processed`, `total_found` and `error`
   * are only present once a run set them.
   */
  datatype Task = Task(
    taskId: string,
    query: string,
    status: Status,
    message: string,
    progress: int,
    startedAt: string,
    articles: seq<map<string, Value>>,
    totalProcessed: Option<nat>,
    totalFound: Option<nat>,
    error: Option<string>)

  const DefaultQuery: string := "台灣"
  const InitMessage: string := "正在初始化搜尋..."
  const BackgroundMessage: string := "正在背景搜尋更多新聞..."
  const CancelMessage: string := "任務已取消"
  const NotFound: string := "Task not found"

  /** A freshly registered task. */
  function NewTask(taskId: string, query: string, message: string, now: Timestamp): Task
  {
    Task(taskId, query, Started, message, 0, IsoFormat(now), [], None, None, None)
  }

  /** The query of a request: its `query` value, "台灣" when absent. */
  function QueryOf(query: Option<string>): string
  {
    if query.Some? then query.value else DefaultQuery
  }

  /** The reply of `start_async_search` (status 202). */
  datatype StartReply = StartReply(taskId: string, status: string, message: string, checkUrl: string)

  /** One row of `list_search_tasks`. */
  datatype TaskRow = TaskRow(taskId: string, query: string, status: string, progress: int, message: string, startedAt: string)

  function RowOf(id: string, t: Task): TaskRow
  {
    TaskRow(id, t.query, StatusName(t.status), t.progress, t.message, t.startedAt)
  }

  /** The reply of `paginated_search` (status 200). */
  datatype PageReply = PageReply(
    articles: seq<map<string, Value>>,
    page: Value,
    perPage: int,
    totalImmediate: nat,
    backgroundTaskId: Option<string>,
    message: string)

  /** The task registry `search_tasks`: a dictionary, with its insertion order. */
  class TaskRegistry {
    var tasks: map<string, Task>
    var order: seq<string>

    /** The order lists every registered task once. */
    ghost predicate Valid()
      reads this
    {
      NoDup(order) && forall id {:trigger id in order} :: id in order <==> id in tasks
    }

    constructor ()
      ensures tasks == map[] && order == [] && Valid()
    {
      tasks := map[];
      order := [];
    }

    /** `search_tasks[id] = t`: a new key goes last, an existing one keeps its place. */
    method Put(id: string, t: Task)
      requires Valid()
      modifies this
      ensures Valid()
      ensures tasks == old(tasks)[id := t]
      ensures order == if id in old(tasks) then old(order) else old(order) + [id]
    {
      if id !in tasks {
        assert id !in order;
        order := order + [id];
      }
      tasks := tasks[id := t];
    }

    /** `search_tasks[id].update(...)` on a registered task. */
    method SetTask(id: string, t: Task)
      requires Valid() && id in tasks
      modifies this
      ensures Valid()
      ensures tasks == old(tasks)[id := t]
      ensures order == old(order)
    {
      tasks := tasks[id := t];
    }

    /**
     * `start_async_search`: registers a task under the fresh id, in state
     * `started` with progress 0 and no articles, and answers with its id and
     * the url to poll. The run itself is `RunSearch`.
     */
    method StartAsyncSearch(taskId: string, query: Option<string>, now: Timestamp) returns (reply: StartReply)
      requires Valid()
      modifies this
      ensures Valid()
      ensures tasks == old(tasks)[taskId := NewTask(taskId, QueryOf(query), InitMessage, now)]
      ensures tasks[taskId].status == Started && tasks[taskId].progress == 0 && tasks[taskId].articles == []
      ensures tasks[taskId].query == QueryOf(query)
      ensures taskId !in old(tasks) ==> order == old(order) + [taskId]
      ensures reply.taskId == taskId && reply.status == StatusName(Started)
      ensures reply.message == "開始搜尋「" + QueryOf(query) + "」相關新聞"
      ensures reply.checkUrl == "/api/news/search/status/" + taskId
    {
      var q := QueryOf(query);
      Put(taskId, NewTask(taskId, q, InitMessage, now));
      reply := StartReply(taskId, "started", "開始搜尋「" + q + "」相關新聞", "/api/news/search/status/" + taskId);
    }

    /** `get_search_status`: the task as it stands, or not found (404). */
    function GetSearchStatus(taskId: string): (r: Result<Task>)
      reads this
      ensures r.Ok? <==> taskId in tasks
      ensures r.Ok? ==> r.value == tasks[taskId]
      ensures r.Err? ==> r.message == NotFound
    {
      if taskId in tasks then Ok(tasks[taskId]) else Err(NotFound)
    }

    /** `list_search_tasks`: one row per task, in registration order, and their number. */
    method ListSearchTasks() returns (rows: seq<TaskRow>, total: nat)
      requires Valid()
      ensures |rows| == |order| && total == |rows|
      ensures forall i :: 0 <= i < |rows| ==> order[i] in tasks && rows[i] == RowOf(order[i], tasks[order[i]])
      ensures forall id :: id in tasks <==> exists i :: 0 <= i < |rows| && rows[i].taskId == id
    {
      rows := [];
      for i := 0 to |order|
        invariant |rows| == i
        invariant forall k :: 0 <= k < i ==> order[k] in tasks && rows[k] == RowOf(order[k], tasks[order[k]])
      {
        assert order[i] in order;
        rows := rows + [RowOf(order[i], tasks[order[i]])];
      }
      total := |rows|;
      forall id | id in tasks
        ensures exists i :: 0 <= i < |rows| && rows[i].taskId == id
      {
        assert id in order;
        var i :| 0 <= i < |order| && order[i] == id;
        assert rows[i].taskId == id;
      }
    }

    /**
     * `cancel_search_task`: a registered task is marked cancelled, and only its
     * status and message change; an unknown id is not found (404).
     */
    method CancelSearchTask(taskId: string) returns (r: Result<string>)
      requires Valid()
      modifies this
      ensures Valid()
      ensures order == old(order)
      ensures taskId in old(tasks) ==>
        r == Ok(CancelMessage)
        && tasks == old(tasks)[taskId := old(tasks)[taskId].(status := Cancelled, message := CancelMessage)]
      ensures taskId !in old(tasks) ==> r == Err(NotFound) && tasks == old(tasks)
    {
      if taskId in tasks {
        tasks := tasks[taskId := tasks[taskId].(status := Cancelled, message := CancelMessage)];
        r := Ok(CancelMessage);
      } else {
        r := Err(NotFound);
      }
    }

    /**
     * `paginated_search`, given the serialised stored matches of the query:
     * they are returned at once, and a background task is registered exactly
     * when they are fewer than `per_page`.
     */
    method PaginatedSearch(existing: seq<map<string, Value>>, page: Value, perPage: int,
                           taskId: string, query: Option<string>, now: Timestamp) returns (reply: PageReply)
      requires Valid()
      modifies this
      ensures Valid()
      ensures reply.backgroundTaskId.Some? <==> |existing| < perPage
      ensures |existing| < perPage ==>
        reply.backgroundTaskId == Some(taskId)
        && tasks == old(tasks)[taskId := NewTask(taskId, QueryOf(query), BackgroundMessage, now)]
      ensures |existing| >= perPage ==> tasks == old(tasks) && order == old(order)
      ensures reply.articles == existing && reply.totalImmediate == |existing| && reply.perPage == perPage
      ensures reply.message ==
        "立即返回 " + NatToString(|existing|) + " 篇相關新聞" + (if |existing| < perPage then "，正在背景搜尋更多新聞" else "")
    {
      var background: Option<string> := None;
      if |existing| < perPage {
        Put(taskId, NewTask(taskId, QueryOf(query), BackgroundMessage, now));
        background := Some(taskId);
      }
      var suffix := if background.Some? then "，正在背景搜尋更多新聞" else "";
      reply := PageReply(existing, page, perPage, |existing|, background,
        "立即返回 " + NatToString(|existing|) + " 篇相關新聞" + suffix);
    }
  }

  // The worker.

  const SearchingMessage: string := "正在搜尋新聞..."
  const NothingFound: string := "沒有找到相關新聞"
  const SummarizingMessage: string := "正在生成摘要..."

  function FoundMessage(n: nat): string { "找到 " + NatToString(n) + " 篇文章，正在過濾..." }
  function AllExistMessage(n: nat): string { "所有文章都已存在，返回 " + NatToString(n) + " 篇" }
  function FetchingMessage(n: nat): string { "正在抓取 " + NatToString(n) + " 篇文章內容..." }
  function TickMessage(i: nat, n: nat): string { "已處理 " + NatToString(i + 1) + "/" + NatToString(n) + " 篇文章" }
  function DoneMessage(n: nat): string { "成功處理 " + NatToString(n) + " 篇新文章" }

  /** At most this many stored articles are returned when every candidate is already stored. */
  const ExistingLimit: nat := 10

  /** The cache lifetime of the worker's own fetcher, in seconds. */
  const JinaTtl: int := 3600

  /** The summary length the worker asks for. */
  const AsyncSummaryLength: int := 150

  /** A stage update: status, message and progress. */
  function Stage(t: Task, s: Status, message: string, progress: int): Task
  {
    t.(status := s, message := message, progress := progress)
  }

  /** The final update of a finished run. */
  function Complete(t: Task, message: string, articles: seq<map<string, Value>>): Task
  {
    t.(status := Completed, message := message, progress := 100, articles := articles)
  }

  /** The exception handler's update. */
  function Fail(t: Task, e: string): Task
  {
    t.(status := Failed, message := "處理失敗: " + e, progress := 100, error := Some(e))
  }

  /** A candidate the worker processes: it has a url, and no stored document has it. */
  predicate IsNew(docs: seq<Doc>, c: NewsCrawler.Candidate)
  {
    c.url.Some? && c.url.value != "" && !HasUrl(docs, c.url.value)
  }

  /** `articles_to_process`: the new candidates, in order. */
  function Pending(docs: seq<Doc>, articles: seq<NewsCrawler.Candidate>): (r: seq<NewsCrawler.Candidate>)
    ensures |r| <= |articles|
    decreases |articles|
  {
    if articles == [] then []
    else
      var c := articles[|articles| - 1];
      Pending(docs, articles[..|articles| - 1]) + (if IsNew(docs, c) then [c] else [])
  }

  function UrlOf(c: NewsCrawler.Candidate): string
  {
    if c.url.Some? then c.url.value else ""
  }

  /** `urls_to_process`: the url of each pending candidate, position by position. */
  function Urls(cs: seq<NewsCrawler.Candidate>): (r: seq<string>)
    ensures |r| == |cs| && forall i :: 0 <= i < |cs| ==> r[i] == UrlOf(cs[i])
  {
    seq(|cs|, i requires 0 <= i < |cs| => UrlOf(cs[i]))
  }

  /** Every pending candidate is a new candidate of the batch. */
  lemma {:induction false} PendingSound(docs: seq<Doc>, articles: seq<NewsCrawler.Candidate>)
    ensures forall c :: c in Pending(docs, articles) ==> IsNew(docs, c) && c in articles
    decreases |articles|
  {
    if articles != [] {
      var k := |articles| - 1;
      var c := articles[k];
      PendingSound(docs, articles[..k]);
      assert Pending(docs, articles) == Pending(docs, articles[..k]) + (if IsNew(docs, c) then [c] else []);
      forall x | x in Pending(docs, articles)
        ensures IsNew(docs, x) && x in articles
      {
        if x in Pending(docs, articles[..k]) {
          var j :| 0 <= j < k && articles[..k][j] == x;
          assert articles[j] == x;
        }
      }
    }
  }

  /** Every new candidate of the batch is pending. */
  lemma {:induction false} PendingComplete(docs: seq<Doc>, articles: seq<NewsCrawler.Candidate>)
    ensures forall i :: 0 <= i < |articles| && IsNew(docs, articles[i]) ==> articles[i] in Pending(docs, articles)
    decreases |articles|
  {
    if articles != [] {
      var k := |articles| - 1;
      PendingComplete(docs, articles[..k]);
      forall i | 0 <= i < |articles| && IsNew(docs, articles[i])
        ensures articles[i] in Pending(docs, articles)
      {
        if i < k {
          assert articles[..k][i] == articles[i];
        }
      }
    }
  }

  /**
   * The filter looks at the store as it was before the run: two new candidates
   * with the same url are both pending, since nothing is inserted until the
   * filter is done.
   */
  lemma PendingKeepsRepeats(docs: seq<Doc>, c: NewsCrawler.Candidate, d: NewsCrawler.Candidate)
    requires IsNew(docs, c) && d.url == c.url
    ensures Pending(docs, [c, d]) == [c, d]
  {
    assert [c, d][..1] == [c];
    assert [c][..0] == [];
  }

  /** The filter loop over the candidates. */
  method FilterArticles(store: Collection, articles: seq<NewsCrawler.Candidate>) returns (pending: seq<NewsCrawler.Candidate>)
    ensures pending == Pending(store.docs, articles)
  {
    pending := [];
    for i := 0 to |articles|
      invariant pending == Pending(store.docs, articles[..i])
    {
      assert articles[..i + 1][..i] == articles[..i];
      var c := articles[i];
      match c.url {
        case None =>
        case Some(url) =>
          if url != "" {
            var existing := store.FindByUrl(url);
            if existing.None? {
              pending := pending + [c];
            }
          }
      }
    }
    assert articles[..|articles|] == articles;
  }

  /**
   * The stored documents of the candidates, serialised, when none is new: the
   * first serialisation that fails is the run's exception.
   */
  function Existing(docs: seq<Doc>, articles: seq<NewsCrawler.Candidate>): Result<seq<map<string, Value>>>
    decreases |articles|
  {
    if articles == [] then Ok([])
    else
      match Existing(docs, articles[..|articles| - 1])
      case Err(e) => Err(e)
      case Ok(prev) =>
        var c := articles[|articles| - 1];
        if c.url.None? || c.url.value == "" then Ok(prev)
        else
          match FirstWithUrl(docs, c.url.value)
          case None => Ok(prev)
          case Some(d) =>
            match SerializeForApi(d)
            case Err(e) => Err(e)
            case Ok(v) => Ok(prev + [v])
  }

  /** Once a serialisation has failed, later candidates do not change the outcome. */
  lemma {:induction false} ExistingErrSticks(docs: seq<Doc>, articles: seq<NewsCrawler.Candidate>, n: nat, e: string)
    requires n <= |articles| && Existing(docs, articles[..n]) == Err(e)
    ensures Existing(docs, articles) == Err(e)
    decreases |articles| - n
  {
    if n < |articles| {
      assert articles[..n + 1][..n] == articles[..n];
      ExistingErrSticks(docs, articles, n + 1, e);
    } else {
      assert articles[..n] == articles;
    }
  }

  /** The loop that collects the stored documents; the first failure ends it. */
  method CollectExisting(store: Collection, articles: seq<NewsCrawler.Candidate>) returns (r: Result<seq<map<string, Value>>>)
    ensures r == Existing(store.docs, articles)
  {
    var found: seq<map<string, Value>> := [];
    for i := 0 to |articles|
      invariant Existing(store.docs, articles[..i]) == Ok(found)
    {
      assert articles[..i + 1][..i] == articles[..i];
      var c := articles[i];
      match c.url {
        case None =>
        case Some(url) =>
          if url != "" {
            var existing := store.FindByUrl(url);
            match existing {
              case None =>
              case Some(d) =>
                match SerializeForApi(d) {
                  case Err(e) =>
                    ExistingErrSticks(store.docs, articles, i + 1, e);
                    return Err(e);
                  case Ok(v) =>
                    found := found + [v];
                }
            }
          }
      }
    }
    assert articles[..|articles|] == articles;
    r := Ok(found);
  }

  /** What the worker's fresh fetcher (cache lifetime 3600 s) returns for the urls at clock reading `clock`. */
  function Contents(urls: seq<string>, net: string -> ContentFilter.Transport, clock: int): map<string, string>
  {
    JinaFetcher.FetchAll(JinaFetcher.FetchState(map[], []), JinaTtl, JinaFetcher.Cooperative, urls, net, clock).results
  }

  /**
   * Every listed URL has an entry: "" for a blocked one, and for the others the
   * proxy's reply to that URL as the cooperative path accepts it.
   */
  lemma ContentsAreReplies(urls: seq<string>, net: string -> ContentFilter.Transport, clock: int)
    ensures forall u :: u in urls ==>
      u in Contents(urls, net, clock)
      && Contents(urls, net, clock)[u] == (if JinaFetcher.IsBlockedUrl(u) then "" else JinaFetcher.AsyncAccept(net(u)))
  {
    var st := JinaFetcher.FetchState(map[], []);
    JinaFetcher.FetchAllKeys(st, JinaTtl, JinaFetcher.Cooperative, urls, net, clock);
    JinaFetcher.FetchAllSkipsBlocked(st, JinaTtl, JinaFetcher.Cooperative, urls, net, clock);
    JinaFetcher.FetchAllComplete(st, JinaTtl, JinaFetcher.Cooperative, urls, net, clock);
  }

  /** The progress and message written after an insert. */
  datatype Tick = Tick(progress: int, message: string)

  /** The state of the summarise-and-store loop: the store, the serialised new articles, the progress updates. */
  datatype Run = Run(docs: seq<Doc>, entries: seq<map<string, Value>>, ticks: seq<Tick>)

  /** `serialize_for_api` of a document the worker stored (its failure case never arises, see `InsertedEntries`). */
  function Serialized(d: Doc): map<string, Value>
  {
    match SerializeForApi(d)
    case Ok(v) => v
    case Err(_) => map[]
  }

  /** The text of a pending candidate: its fetched page, else the API's own text. */
  function TextOf(c: NewsCrawler.Candidate, contents: map<string, string>): string
  {
    NewsRoutes.FullContent(if UrlOf(c) in contents then contents[UrlOf(c)] else "", c)
  }

  /** The document stored for a pending candidate with text `full`. */
  function ItemDoc(c: NewsCrawler.Candidate, full: string, gen: Summarizer.Generator, now: Timestamp): Doc
  {
    NewsRoutes.ArticleDoc(c, UrlOf(c), full,
      Summarizer.SummaryOf(gen, full, NewsRoutes.TitleArg(c), AsyncSummaryLength), now)
  }

  /** The progress written after inserting the `k`-th of `n` pending candidates (counting from 0). */
  function TickProgress(k: nat, n: nat): (p: int)
    requires k < n
    ensures 75 <= p
  {
    75 + (20 * (k + 1)) / n
  }

  /**
   * One pass of the loop over the `k`-th of `n` pending candidates: with more
   * than 50 characters of text it is summarised, stored, serialised, and the
   * progress is updated; otherwise it is skipped.
   */
  function Step(prev: Run, c: NewsCrawler.Candidate, k: nat, n: nat, contents: map<string, string>,
                gen: Summarizer.Generator, now: Timestamp): Run
    requires k < n
  {
    var full := TextOf(c, contents);
    if |full| <= NewsRoutes.ShortText then prev
    else
      var stored := Stored(prev.docs, ItemDoc(c, full, gen, now));
      Run(prev.docs + [stored], prev.entries + [Serialized(stored)],
        prev.ticks + [Tick(TickProgress(k, n), TickMessage(k, n))])
  }

  /** The loop over the first `|pending|` of `n` pending candidates. */
  function Inserted(docs: seq<Doc>, pending: seq<NewsCrawler.Candidate>, contents: map<string, string>,
                    gen: Summarizer.Generator, now: Timestamp, n: nat): Run
    requires |pending| <= n
    decreases |pending|
  {
    if pending == [] then Run(docs, [], [])
    else
      var k := |pending| - 1;
      Step(Inserted(docs, pending[..k], contents, gen, now, n), pending[k], k, n, contents, gen, now)
  }

  /** A document whose original content is longer than 50 characters. */
  predicate LongDoc(d: Doc)
  {
    "original_content" in d && d["original_content"].Str? && |d["original_content"].s| > NewsRoutes.ShortText
  }

  /** The document stored for a candidate carries the candidate's url. */
  lemma ItemDocUrl(docs: seq<Doc>, c: NewsCrawler.Candidate, full: string, gen: Summarizer.Generator, now: Timestamp)
    ensures HasUrlValue(Stored(docs, ItemDoc(c, full, gen, now)), UrlOf(c))
  {
    var summary := Summarizer.SummaryOf(gen, full, NewsRoutes.TitleArg(c), AsyncSummaryLength);
    var item := NewItem(FromOption(c.title), Str(summary), Str(UrlOf(c)), FromOption(c.source), Str(full), now);
    assert ItemDoc(c, full, gen, now) == ToDict(item);
  }

  /**
   * One pass either leaves everything as it was, or appends exactly one
   * document, one entry and one progress update, the document with more than
   * 50 characters of text and the entry its successful serialisation.
   */
  lemma StepAppends(prev: Run, c: NewsCrawler.Candidate, k: nat, n: nat, contents: map<string, string>,
                    gen: Summarizer.Generator, now: Timestamp)
    requires k < n
    ensures Step(prev, c, k, n, contents, gen, now) == prev
      || (|Step(prev, c, k, n, contents, gen, now).docs| == |prev.docs| + 1
          && Step(prev, c, k, n, contents, gen, now).docs[..|prev.docs|] == prev.docs
          && LongDoc(Step(prev, c, k, n, contents, gen, now).docs[|prev.docs|])
          && Step(prev, c, k, n, contents, gen, now).entries == prev.entries
            + [SerializeForApi(Step(prev, c, k, n, contents, gen, now).docs[|prev.docs|]).value]
          && SerializeForApi(Step(prev, c, k, n, contents, gen, now).docs[|prev.docs|]).Ok?
          && Step(prev, c, k, n, contents, gen, now).ticks == prev.ticks + [Tick(TickProgress(k, n), TickMessage(k, n))])
  {
    var full := TextOf(c, contents);
    if |full| > NewsRoutes.ShortText {
      var summary := Summarizer.SummaryOf(gen, full, NewsRoutes.TitleArg(c), AsyncSummaryLength);
      var item := NewItem(FromOption(c.title), Str(summary), Str(UrlOf(c)), FromOption(c.source), Str(full), now);
      assert ItemDoc(c, full, gen, now) == ToDict(item);
      SerializeStoredItem(item, |prev.docs|, now);
    }
  }

  /**
   * The loop only appends, one document, one serialised entry and one progress
   * update per insert, and only documents with more than 50 characters of text.
   */
  lemma {:induction false} InsertedCounts(docs: seq<Doc>, pending: seq<NewsCrawler.Candidate>, contents: map<string, string>,
                                         gen: Summarizer.Generator, now: Timestamp, n: nat)
    requires |pending| <= n
    ensures docs <= Inserted(docs, pending, contents, gen, now, n).docs
    ensures |Inserted(docs, pending, contents, gen, now, n).docs| == |docs| + |Inserted(docs, pending, contents, gen, now, n).entries|
    ensures |Inserted(docs, pending, contents, gen, now, n).ticks| == |Inserted(docs, pending, contents, gen, now, n).entries|
    ensures forall i :: |docs| <= i < |Inserted(docs, pending, contents, gen, now, n).docs| ==>
      LongDoc(Inserted(docs, pending, contents, gen, now, n).docs[i])
    decreases |pending|
  {
    if pending != [] {
      var k := |pending| - 1;
      InsertedCounts(docs, pending[..k], contents, gen, now, n);
      StepAppends(Inserted(docs, pending[..k], contents, gen, now, n), pending[k], k, n, contents, gen, now);
    }
  }

  /** Every entry is the successful serialisation of the document stored with it. */
  lemma {:induction false} InsertedEntries(docs: seq<Doc>, pending: seq<NewsCrawler.Candidate>, contents: map<string, string>,
                                          gen: Summarizer.Generator, now: Timestamp, n: nat)
    requires |pending| <= n
    ensures forall i :: 0 <= i < |Inserted(docs, pending, contents, gen, now, n).entries| ==>
      |docs| + i < |Inserted(docs, pending, contents, gen, now, n).docs|
      && SerializeForApi(Inserted(docs, pending, contents, gen, now, n).docs[|docs| + i])
        == Ok(Inserted(docs, pending, contents, gen, now, n).entries[i])
    decreases |pending|
  {
    if pending != [] {
      var k := |pending| - 1;
      var prev := Inserted(docs, pending[..k], contents, gen, now, n);
      InsertedEntries(docs, pending[..k], contents, gen, now, n);
      InsertedCounts(docs, pending[..k], contents, gen, now, n);
      StepAppends(prev, pending[k], k, n, contents, gen, now);
      var r := Inserted(docs, pending, contents, gen, now, n);
      assert r == Step(prev, pending[k], k, n, contents, gen, now);
      if r != prev {
        forall i | 0 <= i < |r.entries|
          ensures |docs| + i < |r.docs| && SerializeForApi(r.docs[|docs| + i]) == Ok(r.entries[i])
        {
          if i < |prev.entries| {
            assert r.entries[i] == prev.entries[i];
            assert r.docs[|docs| + i] == r.docs[..|prev.docs|][|docs| + i];
          } else {
            assert |docs| + i == |prev.docs|;
          }
        }
      } else {
        assert forall i :: 0 <= i < |r.entries| ==> |docs| + i < |r.docs| && SerializeForApi(r.docs[|docs| + i]) == Ok(r.entries[i]);
      }
    } else {
      assert Inserted(docs, pending, contents, gen, now, n).entries == [];
    }
  }

  /** Every progress update lies between 75 and `hi`. */
  predicate TicksWithin(ticks: seq<Tick>, hi: int)
  {
    forall i :: 0 <= i < |ticks| ==> 75 <= ticks[i].progress <= hi
  }

  /** The progress updates never go down. */
  predicate TicksSorted(ticks: seq<Tick>)
  {
    forall i, j :: 0 <= i < j < |ticks| ==> ticks[i].progress <= ticks[j].progress
  }

  lemma NegativeFactor(x: int, n: int)
    requires n > 0 && x * n < 0
    ensures x < 0
  {
  }

  lemma DivMonotone(a: nat, b: nat, n: nat)
    requires a <= b && n > 0
    ensures a / n <= b / n
  {
    var p, q := a / n, b / n;
    assert p * n + a % n == a;
    assert q * n + b % n == b;
    assert (p - q - 1) * n == p * n - q * n - n;
    NegativeFactor(p - q - 1, n);
  }

  /** A later insert never reports less progress. */
  lemma TickProgressRises(k: nat, n: nat)
    requires k + 1 < n
    ensures TickProgress(k, n) <= TickProgress(k + 1, n)
  {
    DivMonotone(20 * (k + 1), 20 * (k + 2), n);
  }

  /** One pass adds at most the update for its own position. */
  lemma StepTicks(prev: Run, c: NewsCrawler.Candidate, k: nat, n: nat, contents: map<string, string>,
                  gen: Summarizer.Generator, now: Timestamp)
    requires k < n
    ensures Step(prev, c, k, n, contents, gen, now).ticks == prev.ticks
      || Step(prev, c, k, n, contents, gen, now).ticks == prev.ticks + [Tick(TickProgress(k, n), TickMessage(k, n))]
  {
  }

  lemma TicksWithinAppend(ticks: seq<Tick>, t: Tick, lo: int, hi: int)
    requires TicksWithin(ticks, lo) && lo <= hi && 75 <= t.progress <= hi
    ensures TicksWithin(ticks + [t], hi)
  {
  }

  lemma TicksSortedAppend(ticks: seq<Tick>, t: Tick, lo: int)
    requires TicksSorted(ticks) && TicksWithin(ticks, lo) && lo <= t.progress
    ensures TicksSorted(ticks + [t])
  {
  }

  /** The updates never pass 75 plus the share of the pending candidates handled so far. */
  lemma {:induction false} TicksBounded(docs: seq<Doc>, pending: seq<NewsCrawler.Candidate>, contents: map<string, string>,
                                       gen: Summarizer.Generator, now: Timestamp, n: nat)
    requires 0 < |pending| <= n
    ensures TicksWithin(Inserted(docs, pending, contents, gen, now, n).ticks, TickProgress(|pending| - 1, n))
    decreases |pending|
  {
    var k := |pending| - 1;
    var prev := Inserted(docs, pending[..k], contents, gen, now, n);
    var lo := 75;
    if k > 0 {
      TicksBounded(docs, pending[..k], contents, gen, now, n);
      TickProgressRises(k - 1, n);
      lo := TickProgress(k - 1, n);
    }
    assert TicksWithin(prev.ticks, lo);
    StepTicks(prev, pending[k], k, n, contents, gen, now);
    TicksWithinAppend(prev.ticks, Tick(TickProgress(k, n), TickMessage(k, n)), lo, TickProgress(k, n));
  }

  /** The per-insert progress values never go down. */
  lemma {:induction false} TicksRise(docs: seq<Doc>, pending: seq<NewsCrawler.Candidate>, contents: map<string, string>,
                                    gen: Summarizer.Generator, now: Timestamp, n: nat)
    requires |pending| <= n
    ensures TicksSorted(Inserted(docs, pending, contents, gen, now, n).ticks)
    decreases |pending|
  {
    if pending != [] {
      var k := |pending| - 1;
      var prev := Inserted(docs, pending[..k], contents, gen, now, n);
      TicksRise(docs, pending[..k], contents, gen, now, n);
      var lo := 75;
      if k > 0 {
        TicksBounded(docs, pending[..k], contents, gen, now, n);
        TickProgressRises(k - 1, n);
        lo := TickProgress(k - 1, n);
      }
      assert TicksWithin(prev.ticks, lo);
      StepTicks(prev, pending[k], k, n, contents, gen, now);
      TicksSortedAppend(prev.ticks, Tick(TickProgress(k, n), TickMessage(k, n)), lo);
    }
  }

  /** The last update of a loop over all `n` pending candidates is at most 95. */
  lemma TicksAtMost95(k: nat, n: nat)
    requires k < n
    ensures TickProgress(k, n) <= 95
  {
    DivMonotone(20 * (k + 1), 20 * n, n);
    assert (20 * n) / n == 20;
  }

  /** The progress values of the updates, in order. */
  function Progresses(ticks: seq<Tick>): (r: seq<int>)
    ensures |r| == |ticks| && forall i :: 0 <= i < |ticks| ==> r[i] == ticks[i].progress
  {
    seq(|ticks|, i requires 0 <= i < |ticks| => ticks[i].progress)
  }

  predicate NonDecreasing(xs: seq<int>)
  {
    forall i, j :: 0 <= i < j < |xs| ==> xs[i] <= xs[j]
  }

  /**
   * A well-formed progress log from `first`: it starts there, ends at 100,
   * never decreases and never leaves `first`..100.
   */
  predicate GoodLog(xs: seq<int>, first: int)
  {
    xs != [] && xs[0] == first && xs[|xs| - 1] == 100 && NonDecreasing(xs)
    && forall i :: 0 <= i < |xs| ==> first <= xs[i] <= 100
  }

  lemma GoodLogCons(x: int, xs: seq<int>, y: int)
    requires GoodLog(xs, y) && x <= y
    ensures GoodLog([x] + xs, x)
  {
    var ys := [x] + xs;
    forall i, j | 0 <= i < j < |ys|
      ensures ys[i] <= ys[j]
    {
      if i > 0 {
        assert ys[i] == xs[i - 1] && ys[j] == xs[j - 1];
      } else {
        assert ys[j] == xs[j - 1];
      }
    }
  }

  lemma TicksLog(ticks: seq<Tick>)
    requires TicksSorted(ticks) && TicksWithin(ticks, 95)
    ensures GoodLog([75] + Progresses(ticks) + [100], 75)
  {
    var ps := Progresses(ticks);
    var xs := [75] + ps + [100];
    forall i, j | 0 <= i < j < |xs|
      ensures xs[i] <= xs[j]
    {
      if 0 < i && j <= |ps| {
        assert xs[i] == ticks[i - 1].progress && xs[j] == ticks[j - 1].progress;
      } else if 0 < i {
        assert xs[i] == ticks[i - 1].progress;
      } else if j <= |ps| {
        assert xs[j] == ticks[j - 1].progress;
      }
    }
    forall i | 0 <= i < |xs|
      ensures 75 <= xs[i] <= 100
    {
      if 0 < i <= |ps| {
        assert xs[i] == ticks[i - 1].progress;
      }
    }
  }

  /** The task during the loop: the last update's progress and message, if any. */
  function Current(t: Task, ticks: seq<Tick>): Task
  {
    if ticks == [] then t
    else t.(progress := ticks[|ticks| - 1].progress, message := ticks[|ticks| - 1].message)
  }

  /** The end of a run: the task's final state, the store, and the progress values the task went through. */
  datatype Outcome = Outcome(task: Task, docs: seq<Doc>, log: seq<int>)

  /** The summarise-and-store stage and the final update, once the pages are fetched. */
  function Summarized(t4: Task, docs: seq<Doc>, articles: seq<NewsCrawler.Candidate>, pending: seq<NewsCrawler.Candidate>,
                      contents: map<string, string>, gen: Summarizer.Generator, now: Timestamp): Outcome
  {
    var run := Inserted(docs, pending, contents, gen, now, |pending|);
    var done := Complete(t4, DoneMessage(|run.entries|), run.entries);
    Outcome(done.(totalProcessed := Some(|run.entries|), totalFound := Some(|articles|)),
      run.docs, [75] + Progresses(run.ticks) + [100])
  }

  /** The stages after the filter, for a non-empty list of pending candidates. */
  function Generated(t2: Task, docs: seq<Doc>, articles: seq<NewsCrawler.Candidate>, pending: seq<NewsCrawler.Candidate>,
                     gen: Summarizer.Generator, net: string -> ContentFilter.Transport, clock: int, now: Timestamp): Outcome
  {
    var t3 := Stage(t2, FetchingContent, FetchingMessage(|pending|), 50);
    var o := Summarized(Stage(t3, GeneratingSummaries, SummarizingMessage, 75), docs, articles, pending,
      Contents(Urls(pending), net, clock), gen, now);
    o.(log := [50] + o.log)
  }

  /** The stages from the filter on. */
  function Filtered(t2: Task, docs: seq<Doc>, articles: seq<NewsCrawler.Candidate>,
                    gen: Summarizer.Generator, net: string -> ContentFilter.Transport, clock: int, now: Timestamp): Outcome
  {
    var pending := Pending(docs, articles);
    if pending == [] then
      match Existing(docs, articles)
      case Err(e) => Outcome(Fail(t2, e), docs, [30, 100])
      case Ok(found) => Outcome(Complete(t2, AllExistMessage(|found|), PyTake(found, ExistingLimit)), docs, [30, 100])
    else
      var o := Generated(t2, docs, articles, pending, gen, net, clock, now);
      o.(log := [30] + o.log)
  }

  /** `async_process_news` from a task's state, the store, and the News API's answer. */
  function Process(task: Task, docs: seq<Doc>, reply: NewsCrawler.ApiReply,
                   gen: Summarizer.Generator, net: string -> ContentFilter.Transport, clock: int, now: Timestamp): Outcome
  {
    var articles := NewsCrawler.ArticlesOf(reply);
    var t1 := Stage(task, FetchingArticles, SearchingMessage, 10);
    if articles == [] then Outcome(Complete(t1, NothingFound, []), docs, [10, 100])
    else
      var o := Filtered(Stage(t1, FilteringArticles, FoundMessage(|articles|), 30), docs, articles, gen, net, clock, now);
      o.(log := [10] + o.log)
  }

  /**
   * A run always ends completed or failed with progress 100, whatever the
   * task's status was (a cancellation is not looked at); the task keeps its
   * id, query and start time.
   */
  lemma ProcessEnds(task: Task, docs: seq<Doc>, reply: NewsCrawler.ApiReply,
                    gen: Summarizer.Generator, net: string -> ContentFilter.Transport, clock: int, now: Timestamp)
    ensures Process(task, docs, reply, gen, net, clock, now).task.status in {Completed, Failed}
    ensures Process(task, docs, reply, gen, net, clock, now).task.progress == 100
    ensures Process(task, docs, reply, gen, net, clock, now).task.taskId == task.taskId
      && Process(task, docs, reply, gen, net, clock, now).task.query == task.query
      && Process(task, docs, reply, gen, net, clock, now).task.startedAt == task.startedAt
  {
  }

  /** A failed lookup of stored candidates fails with the exception of serialising one of the stored documents. */
  lemma {:induction false} ExistingErrOrigin(docs: seq<Doc>, articles: seq<NewsCrawler.Candidate>)
    ensures Existing(docs, articles).Err? ==>
      exists d :: d in docs && SerializeForApi(d) == Err(Existing(docs, articles).message)
    decreases |articles|
  {
    if articles != [] {
      ExistingErrOrigin(docs, articles[..|articles| - 1]);
      var c := articles[|articles| - 1];
      if Existing(docs, articles[..|articles| - 1]).Ok? && c.url.Some? && c.url.value != "" {
        var found := FirstWithUrl(docs, c.url.value);
        if found.Some? {
          var i :| FirstAt(docs, c.url.value, i) && docs[i] == found.value;
          assert docs[i] in docs;
        }
      }
    }
  }

  /**
   * A failed run records the text of the exception, which is that of
   * serialising one of the stored documents, and reports it after "處理失敗: ".
   */
  lemma ProcessFailureText(task: Task, docs: seq<Doc>, reply: NewsCrawler.ApiReply,
                           gen: Summarizer.Generator, net: string -> ContentFilter.Transport, clock: int, now: Timestamp)
    ensures var t := Process(task, docs, reply, gen, net, clock, now).task;
      t.status == Failed ==>
        t.error.Some? && t.message == "處理失敗: " + t.error.value
        && exists d :: d in docs && SerializeForApi(d) == Err(t.error.value)
  {
    ExistingErrOrigin(docs, NewsCrawler.ArticlesOf(reply));
  }

  /** Without candidates the run completes at once with no articles and an unchanged store. */
  lemma NoArticlesCompletes(task: Task, docs: seq<Doc>, reply: NewsCrawler.ApiReply,
                            gen: Summarizer.Generator, net: string -> ContentFilter.Transport, clock: int, now: Timestamp)
    requires NewsCrawler.ArticlesOf(reply) == []
    ensures Process(task, docs, reply, gen, net, clock, now)
      == Outcome(task.(status := Completed, message := NothingFound, progress := 100, articles := []), docs, [10, 100])
  {
  }

  /**
   * When every candidate is stored already (or has no url), nothing is inserted,
   * and a completed run returns at most ten stored articles; a failed one
   * records its error.
   */
  lemma NothingNewStoresNothing(task: Task, docs: seq<Doc>, reply: NewsCrawler.ApiReply,
                                gen: Summarizer.Generator, net: string -> ContentFilter.Transport, clock: int, now: Timestamp)
    requires NewsCrawler.ArticlesOf(reply) != [] && Pending(docs, NewsCrawler.ArticlesOf(reply)) == []
    ensures Process(task, docs, reply, gen, net, clock, now).docs == docs
    ensures Process(task, docs, reply, gen, net, clock, now).task.status == Completed ==>
      |Process(task, docs, reply, gen, net, clock, now).task.articles| <= ExistingLimit
    ensures Process(task, docs, reply, gen, net, clock, now).task.status == Failed ==>
      Process(task, docs, reply, gen, net, clock, now).task.error.Some?
  {
  }

  /**
   * After the summarise stage, `total_processed` is the number of returned
   * articles and of new documents, `total_found` the number of candidates,
   * and every new document has more than 50 characters of text.
   */
  lemma SummarizedTotals(t4: Task, docs: seq<Doc>, articles: seq<NewsCrawler.Candidate>, pending: seq<NewsCrawler.Candidate>,
                         contents: map<string, string>, gen: Summarizer.Generator, now: Timestamp)
    ensures Summarized(t4, docs, articles, pending, contents, gen, now).task.totalProcessed
      == Some(|Summarized(t4, docs, articles, pending, contents, gen, now).task.articles|)
    ensures Summarized(t4, docs, articles, pending, contents, gen, now).task.totalFound == Some(|articles|)
    ensures docs <= Summarized(t4, docs, articles, pending, contents, gen, now).docs
    ensures |Summarized(t4, docs, articles, pending, contents, gen, now).docs|
      == |docs| + |Summarized(t4, docs, articles, pending, contents, gen, now).task.articles|
    ensures forall i :: |docs| <= i < |Summarized(t4, docs, articles, pending, contents, gen, now).docs| ==>
      LongDoc(Summarized(t4, docs, articles, pending, contents, gen, now).docs[i])
  {
    InsertedCounts(docs, pending, contents, gen, now, |pending|);
  }

  /** A run only adds to the store, and only documents with more than 50 characters of text. */
  lemma ProcessStoresLong(task: Task, docs: seq<Doc>, reply: NewsCrawler.ApiReply,
                          gen: Summarizer.Generator, net: string -> ContentFilter.Transport, clock: int, now: Timestamp)
    ensures docs <= Process(task, docs, reply, gen, net, clock, now).docs
    ensures forall i :: |docs| <= i < |Process(task, docs, reply, gen, net, clock, now).docs| ==>
      LongDoc(Process(task, docs, reply, gen, net, clock, now).docs[i])
  {
    var articles := NewsCrawler.ArticlesOf(reply);
    var pending := Pending(docs, articles);
    if articles != [] && pending != [] {
      InsertedCounts(docs, pending, Contents(Urls(pending), net, clock), gen, now, |pending|);
    }
  }

  lemma SummarizedLog(t4: Task, docs: seq<Doc>, articles: seq<NewsCrawler.Candidate>, pending: seq<NewsCrawler.Candidate>,
                      contents: map<string, string>, gen: Summarizer.Generator, now: Timestamp)
    ensures GoodLog(Summarized(t4, docs, articles, pending, contents, gen, now).log, 75)
  {
    var ticks := Inserted(docs, pending, contents, gen, now, |pending|).ticks;
    TicksRise(docs, pending, contents, gen, now, |pending|);
    if pending != [] {
      TicksBounded(docs, pending, contents, gen, now, |pending|);
      TicksAtMost95(|pending| - 1, |pending|);
    } else {
      assert ticks == [];
    }
    TicksLog(ticks);
  }

  lemma FilteredLog(t2: Task, docs: seq<Doc>, articles: seq<NewsCrawler.Candidate>,
                    gen: Summarizer.Generator, net: string -> ContentFilter.Transport, clock: int, now: Timestamp)
    ensures GoodLog(Filtered(t2, docs, articles, gen, net, clock, now).log, 30)
  {
    var pending := Pending(docs, articles);
    if pending != [] {
      var t3 := Stage(t2, FetchingContent, FetchingMessage(|pending|), 50);
      var t4 := Stage(t3, GeneratingSummaries, SummarizingMessage, 75);
      var contents := Contents(Urls(pending), net, clock);
      var s := Summarized(t4, docs, articles, pending, contents, gen, now);
      SummarizedLog(t4, docs, articles, pending, contents, gen, now);
      GoodLogCons(50, s.log, 75);
      GoodLogCons(30, [50] + s.log, 50);
      assert Filtered(t2, docs, articles, gen, net, clock, now).log == [30] + ([50] + s.log);
    }
  }

  /** The progress a run goes through never decreases, starts at 10, ends at 100, and stays within 10..100. */
  lemma ProcessLog(task: Task, docs: seq<Doc>, reply: NewsCrawler.ApiReply,
                   gen: Summarizer.Generator, net: string -> ContentFilter.Transport, clock: int, now: Timestamp)
    ensures GoodLog(Process(task, docs, reply, gen, net, clock, now).log, 10)
  {
    var articles := NewsCrawler.ArticlesOf(reply);
    if articles != [] {
      var t2 := Stage(Stage(task, FetchingArticles, SearchingMessage, 10), FilteringArticles, FoundMessage(|articles|), 30);
      FilteredLog(t2, docs, articles, gen, net, clock, now);
      GoodLogCons(10, Filtered(t2, docs, articles, gen, net, clock, now).log, 30);
    }
  }

  /**
   * Two new candidates with the same url and enough text are both stored: the
   * batch is not checked against itself.
   */
  lemma RepeatedUrlStoredTwice(docs: seq<Doc>, c: NewsCrawler.Candidate, d: NewsCrawler.Candidate,
                               contents: map<string, string>, gen: Summarizer.Generator, now: Timestamp)
    requires IsNew(docs, c) && d.url == c.url
    requires |TextOf(c, contents)| > NewsRoutes.ShortText && |TextOf(d, contents)| > NewsRoutes.ShortText
    ensures |Inserted(docs, Pending(docs, [c, d]), contents, gen, now, 2).docs| == |docs| + 2
    ensures HasUrlValue(Inserted(docs, Pending(docs, [c, d]), contents, gen, now, 2).docs[|docs|], UrlOf(c))
      && HasUrlValue(Inserted(docs, Pending(docs, [c, d]), contents, gen, now, 2).docs[|docs| + 1], UrlOf(c))
  {
    PendingKeepsRepeats(docs, c, d);
    assert [c, d][..1] == [c];
    assert [c][..0] == [];
    var r0 := Run(docs, [], []);
    var r1 := Step(r0, c, 0, 2, contents, gen, now);
    var r2 := Step(r1, d, 1, 2, contents, gen, now);
    assert Inserted(docs, [c], contents, gen, now, 2) == r1;
    assert Inserted(docs, [c, d], contents, gen, now, 2) == r2;
    ItemDocUrl(docs, c, TextOf(c, contents), gen, now);
    ItemDocUrl(r1.docs, d, TextOf(d, contents), gen, now);
    assert UrlOf(d) == UrlOf(c);
  }

  /** The two ways a run goes, as the worker's stages follow them. */
  lemma ProcessStages(task: Task, docs: seq<Doc>, reply: NewsCrawler.ApiReply,
                      gen: Summarizer.Generator, net: string -> ContentFilter.Transport, clock: int, now: Timestamp)
    ensures var t1 := Stage(task, FetchingArticles, SearchingMessage, 10);
      var articles := NewsCrawler.ArticlesOf(reply);
      && (articles == [] ==> Process(task, docs, reply, gen, net, clock, now) == Outcome(Complete(t1, NothingFound, []), docs, [10, 100]))
      && (articles != [] ==>
            var f := Filtered(Stage(t1, FilteringArticles, FoundMessage(|articles|), 30), docs, articles, gen, net, clock, now);
            Process(task, docs, reply, gen, net, clock, now) == f.(log := [10] + f.log))
  {
  }

  /**
   * The worker: `async_process_news` for a registered task. Every stage writes
   * its status, message and progress into the task; `log` is the sequence of
   * progress values written.
   */
  method RunSearch(registry: TaskRegistry, store: Collection, taskId: string, reply: NewsCrawler.ApiReply,
                   gen: Summarizer.Generator, net: string -> ContentFilter.Transport, clock: int, now: Timestamp)
    returns (log: seq<int>)
    requires registry.Valid() && taskId in registry.tasks
    modifies registry, store
    ensures registry.Valid()
    ensures registry.order == old(registry.order)
    ensures registry.tasks == old(registry.tasks)[taskId :=
      Process(old(registry.tasks[taskId]), old(store.docs), reply, gen, net, clock, now).task]
    ensures store.docs == Process(old(registry.tasks[taskId]), old(store.docs), reply, gen, net, clock, now).docs
    ensures log == Process(old(registry.tasks[taskId]), old(store.docs), reply, gen, net, clock, now).log
  {
    ProcessStages(registry.tasks[taskId], store.docs, reply, gen, net, clock, now);
    var t1 := Stage(registry.tasks[taskId], FetchingArticles, SearchingMessage, 10);
    registry.SetTask(taskId, t1);
    var articles := NewsCrawler.MapArticles(reply);
    if articles == [] {
      registry.SetTask(taskId, Complete(t1, NothingFound, []));
      log := [10, 100];
    } else {
      var t2 := Stage(t1, FilteringArticles, FoundMessage(|articles|), 30);
      registry.SetTask(taskId, t2);
      var rest := FilterAndGenerate(registry, store, taskId, t2, articles, gen, net, clock, now);
      log := [10] + rest;
    }
  }

  /** The filter, and then either the stored articles or the fetch-and-summarise stages. */
  method FilterAndGenerate(registry: TaskRegistry, store: Collection, taskId: string, t2: Task,
                           articles: seq<NewsCrawler.Candidate>, gen: Summarizer.Generator,
                           net: string -> ContentFilter.Transport, clock: int, now: Timestamp)
    returns (log: seq<int>)
    requires registry.Valid() && taskId in registry.tasks
    modifies registry, store
    ensures registry.Valid()
    ensures registry.order == old(registry.order)
    ensures registry.tasks == old(registry.tasks)[taskId := Filtered(t2, old(store.docs), articles, gen, net, clock, now).task]
    ensures store.docs == Filtered(t2, old(store.docs), articles, gen, net, clock, now).docs
    ensures log == Filtered(t2, old(store.docs), articles, gen, net, clock, now).log
  {
    var pending := FilterArticles(store, articles);
    if pending == [] {
      var found := CollectExisting(store, articles);
      match found {
        case Err(e) =>
          registry.SetTask(taskId, Fail(t2, e));
        case Ok(existing) =>
          registry.SetTask(taskId, Complete(t2, AllExistMessage(|existing|), PyTake(existing, ExistingLimit)));
      }
      log := [30, 100];
    } else {
      var rest := GenerateSummaries(registry, store, taskId, t2, articles, pending, gen, net, clock, now);
      log := [30] + rest;
    }
  }

  /** Fetch the pending pages with a fresh fetcher, then summarise and store. */
  method GenerateSummaries(registry: TaskRegistry, store: Collection, taskId: string, t2: Task,
                           articles: seq<NewsCrawler.Candidate>, pending: seq<NewsCrawler.Candidate>,
                           gen: Summarizer.Generator, net: string -> ContentFilter.Transport, clock: int, now: Timestamp)
    returns (log: seq<int>)
    requires registry.Valid() && taskId in registry.tasks
    modifies registry, store
    ensures registry.Valid()
    ensures registry.order == old(registry.order)
    ensures registry.tasks == old(registry.tasks)[taskId := Generated(t2, old(store.docs), articles, pending, gen, net, clock, now).task]
    ensures store.docs == Generated(t2, old(store.docs), articles, pending, gen, net, clock, now).docs
    ensures log == Generated(t2, old(store.docs), articles, pending, gen, net, clock, now).log
  {
    var t3 := Stage(t2, FetchingContent, FetchingMessage(|pending|), 50);
    registry.SetTask(taskId, t3);
    var fetcher := new JinaFetcher.Fetcher(JinaTtl);
    var contents := fetcher.FetchUrlsAsync(Urls(pending), net, clock);
    var rest := Summarize(registry, store, taskId, Stage(t3, GeneratingSummaries, SummarizingMessage, 75),
      articles, pending, contents, gen, now);
    log := [50] + rest;
  }

  /** The summarise-and-store stage and the final update. */
  method Summarize(registry: TaskRegistry, store: Collection, taskId: string, t4: Task,
                   articles: seq<NewsCrawler.Candidate>, pending: seq<NewsCrawler.Candidate>,
                   contents: map<string, string>, gen: Summarizer.Generator, now: Timestamp)
    returns (log: seq<int>)
    requires registry.Valid() && taskId in registry.tasks
    modifies registry, store
    ensures registry.Valid()
    ensures registry.order == old(registry.order)
    ensures registry.tasks == old(registry.tasks)[taskId := Summarized(t4, old(store.docs), articles, pending, contents, gen, now).task]
    ensures store.docs == Summarized(t4, old(store.docs), articles, pending, contents, gen, now).docs
    ensures log == Summarized(t4, old(store.docs), articles, pending, contents, gen, now).log
  {
    registry.SetTask(taskId, t4);
    var entries, ticks := InsertPending(registry, store, taskId, t4, pending, contents, gen, now);
    var done := Complete(t4, DoneMessage(|entries|), entries);
    registry.SetTask(taskId, done.(totalProcessed := Some(|entries|), totalFound := Some(|articles|)));
    log := [75] + Progresses(ticks) + [100];
  }

  /** The loop state after `i + 1` passes is one pass after the state after `i`. */
  lemma InsertedPrefix(docs: seq<Doc>, pending: seq<NewsCrawler.Candidate>, i: nat, contents: map<string, string>,
                       gen: Summarizer.Generator, now: Timestamp)
    requires i < |pending|
    ensures Inserted(docs, pending[..i + 1], contents, gen, now, |pending|)
      == Step(Inserted(docs, pending[..i], contents, gen, now, |pending|), pending[i], i, |pending|, contents, gen, now)
  {
    assert pending[..i + 1][..i] == pending[..i];
  }

  /** The summarise-and-store loop. */
  method InsertPending(registry: TaskRegistry, store: Collection, taskId: string, t4: Task,
                       pending: seq<NewsCrawler.Candidate>, contents: map<string, string>,
                       gen: Summarizer.Generator, now: Timestamp)
    returns (entries: seq<map<string, Value>>, ticks: seq<Tick>)
    requires registry.Valid() && taskId in registry.tasks && registry.tasks[taskId] == t4
    modifies registry, store
    ensures registry.Valid()
    ensures Inserted(old(store.docs), pending, contents, gen, now, |pending|) == Run(store.docs, entries, ticks)
    ensures registry.order == old(registry.order)
    ensures registry.tasks == old(registry.tasks)[taskId := Current(t4, ticks)]
  {
    entries := [];
    ticks := [];
    ghost var base := registry.tasks;
    for i := 0 to |pending|
      invariant Inserted(old(store.docs), pending[..i], contents, gen, now, |pending|) == Run(store.docs, entries, ticks)
      invariant registry.Valid()
      invariant registry.order == old(registry.order)
      invariant registry.tasks == base[taskId := Current(t4, ticks)]
    {
      InsertedPrefix(old(store.docs), pending, i, contents, gen, now);
      entries, ticks := InsertStep(registry, store, taskId, t4, pending[i], i, |pending|, contents, gen, now, entries, ticks, base);
    }
    assert pending[..|pending|] == pending;
  }

  /** One pass of the loop: the candidate's text, and when longer than 50 characters its summary, document and progress update. */
  method InsertStep(registry: TaskRegistry, store: Collection, taskId: string, t4: Task, c: NewsCrawler.Candidate,
                    k: nat, n: nat, contents: map<string, string>, gen: Summarizer.Generator, now: Timestamp,
                    entries: seq<map<string, Value>>, ticks: seq<Tick>, ghost base: map<string, Task>)
    returns (entries': seq<map<string, Value>>, ticks': seq<Tick>)
    requires registry.Valid() && k < n && registry.tasks == base[taskId := Current(t4, ticks)]
    modifies registry, store
    ensures registry.Valid()
    ensures Step(Run(old(store.docs), entries, ticks), c, k, n, contents, gen, now) == Run(store.docs, entries', ticks')
    ensures registry.order == old(registry.order)
    ensures registry.tasks == base[taskId := Current(t4, ticks')]
  {
    entries', ticks' := entries, ticks;
    var stored := StoreItem(store, c, contents, gen, now);
    match stored {
      case None =>
      case Some(d) =>
        entries' := entries + [Serialized(d)];
        ticks' := ticks + [Tick(TickProgress(k, n), TickMessage(k, n))];
        registry.SetTask(taskId, Current(t4, ticks'));
        UpdateTwice(base, taskId, Current(t4, ticks), Current(t4, ticks'));
    }
  }

  lemma UpdateTwice<K, V>(m: map<K, V>, k: K, a: V, b: V)
    ensures m[k := a][k := b] == m[k := b]
  {
  }

  /** The candidate's text, and when longer than 50 characters its summary and stored document. */
  method StoreItem(store: Collection, c: NewsCrawler.Candidate, contents: map<string, string>,
                   gen: Summarizer.Generator, now: Timestamp) returns (stored: Option<Doc>)
    modifies store
    ensures stored == if |TextOf(c, contents)| > NewsRoutes.ShortText
      then Some(Stored(old(store.docs), ItemDoc(c, TextOf(c, contents), gen, now))) else None
    ensures store.docs == old(store.docs) + if stored.Some? then [stored.value] else []
  {
    var url := UrlOf(c);
    var full := if url in contents then contents[url] else "";
    if full == "" {
      full := NewsRoutes.ApiText(c);
    }
    if |full| <= NewsRoutes.ShortText {
      return None;
    }
    var summary := Summarizer.GenerateSummary(gen, full, NewsRoutes.TitleArg(c), AsyncSummaryLength);
    var d := store.InsertOne(NewsRoutes.ArticleDoc(c, url, full, summary, now));
    return Some(d);
  }
}
