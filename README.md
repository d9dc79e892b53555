# heario content pipeline, modelled in Dafny

heario is a news-to-speech backend. It collects news articles from the News
API, fetches each article's full text through the r.jina.ai extraction proxy,
cleans that text, summarises it with a language model (with extractive and
truncation fallbacks), stores the result in a news collection, and reads
summaries out through a text-to-speech service. A background search task
reports its progress as it goes. A middleware records the performance of
every request.

This project models that core and proves properties of it:

- `JinaFetcher` (jina_fetcher.dfy) is the optimised fetcher. It covers:
  - the blocked-URL filter;
  - the TTL cache with lazy expiry;
  - the post-response validation of the thread-pool and asyncio paths;
  - the two batch collectors.

  It is a class whose `cache` is updated in place. Its `requests` field logs the URLs sent to the proxy, so that "no network call" can be stated.
- `ContentFilter` (content_filter.dfy) holds what the proxy can answer and the validity checks shared by the fetcher and the crawler.
- `NewsCrawler` (news_crawler.dfy) covers:
  - the News API query parameters;
  - the article-to-candidate mapping;
  - the RSS truncation;
  - the validation tail of `fetch_with_jina`, including the Yahoo home-page rule.
- `MainContent` (main_content.dfy) and `Picking` (picking.dfy) are the line filter and the collect-until-cap loop. Both main-content extractors and the smart summary's sentence loop share them.
- `Summarizer` (summarizer.dfy) covers:
  - `_extract_main_content`, with a 1500-character cap and a raw-text fallback;
  - the prompt;
  - the truncation fallback;
  - `batch_summarize`.
- `NewsRoutes` (news_routes.dfy) covers:
  - the routes' own extractor, with a 1000-character cap and "" when nothing survives;
  - `create_smart_summary`;
  - the per-article dedup, fallback and insert loop of `fetch_and_process_news` and `fetch_top_headlines`.
- `NewsStore` (store.dfy) is the news collection: `find_one({'url': ...})` and `insert_one`.
- `NewsModel` (news_model.dfy) is the `NewsItem` record: `to_dict`, `from_dict` and `serialize_for_api`.
- `AsyncNews` (async_news.dfy) covers:
  - the `search_tasks` registry: start, status, list, cancel, and the background rule of the paginated search;
  - the worker `async_process_news`, a stage-by-stage state machine that writes status, message and progress into its task.
- `Tts` (tts.dfy) covers the CJK-ratio language guess, the voice choice, the news script, the synthesis guards, and the segment sequence of a playlist.
- `PerfMiddleware` (perf_middleware.dfy) covers:
  - the bounded metrics buffer;
  - the recent-metrics view;
  - the dashboard's per-endpoint aggregation, recent errors and alerts.
- `PyText`, `PyValue` and `Results` hold the Python string operations, the Python values held in dictionaries, and the Option/Result wrappers.

The following are parameters of the model:
- the network: a function from URL to proxy answer, and the News API answer as a value;
- the language model: a function from prompt to answer, or no client;
- the speech service: whether it has a client, `str.isalnum`, which requests it answers, and the text of its error for the others;
- the clock;
- the fresh ids.

The model follows the code where the code and its documented intent differ:
- **Truncation fallback.** It appends "..." and so gives up to `max_length + 3` characters.
- **Cancellation.** The worker never looks at it: a cancelled task is still driven to `completed` or `error`.
- **The `collectConsent` URL pattern.** It can never match, because the URL is lowercased and the pattern is not.
- **The asyncio fetch path.** It skips the indicator and code-451 checks that the thread-pool path applies.
- **The worker's `create_smart_summary` branch.** It is unreachable, because `generate_summary` catches its own errors.

## Model

| member | source | states |
|---|---|---|
| JinaFetcher.BlockedUrlPatterns | backend/jina_performance_optimization.py:26-35 | a URL is blocked iff its lowercase form contains one of the four lowercase patterns; the mixed-case `collectConsent` pattern never matches |
| JinaFetcher.CacheKeyInjective | backend/jina_performance_optimization.py:37-39 | distinct URLs get distinct cache keys |
| JinaFetcher.CacheLookup | backend/jina_performance_optimization.py:41-52 | a hit exactly when the key is present and younger than the TTL, returning the stored text with the cache untouched; otherwise exactly that key is removed; every other entry is kept |
| JinaFetcher.CacheRoundTrip | backend/jina_performance_optimization.py:41-57 | text stored at t is read back at any t' with t' - t < ttl |
| JinaFetcher.ThreadPoolAccept | backend/jina_performance_optimization.py:86-132 | the thread-pool path keeps a body iff the reply is not an HTTP error, not a code-451 JSON notice, is at least 100 characters once stripped, and has no indicator phrase; what it keeps is the stripped body |
| JinaFetcher.AsyncAccept | backend/jina_performance_optimization.py:195-215 | the asyncio path keeps a body iff the status is 200 and the stripped body is at least 100 characters; what it keeps is the stripped body |
| JinaFetcher.AsyncSkipsIndicatorAndBlockChecks | backend/jina_performance_optimization.py:196-208 | a long 200 reply with an indicator phrase or a 451 notice is kept by the asyncio path and rejected by the thread-pool path |
| JinaFetcher.Accept | backend/jina_performance_optimization.py:100-105 | on either path an accepted text is at least 100 characters |
| JinaFetcher.FetchOne | backend/jina_performance_optimization.py:60-132 | a blocked URL gives "" with the state unchanged; a fresh non-empty cache entry is returned with no request and no change; otherwise exactly one request is logged and the result is the accepted reply; the cache changes only at the URL's key, and only to an accepted text; cached texts stay at least 100 long |
| JinaFetcher.FetchOneCaches | backend/jina_performance_optimization.py:115-121 | an accepted miss is cached under the URL's key with the time of the fetch, and every other entry survives |
| JinaFetcher.RefetchWithinTtl | backend/jina_performance_optimization.py:67-121 | a reply fetched and cached at `now` answers the same URL again, with no request and no change, while less than `ttl` has passed |
| JinaFetcher.BlockedUrlSkipsEverything | backend/jina_performance_optimization.py:67-70 | a blocked URL is answered "" with no cache read, no request and no cache change |
| JinaFetcher.ThreadPoolCachesOnlyValidText | backend/jina_performance_optimization.py:100-121 | every cache entry the thread-pool path writes is stripped, at least 100 long, and free of indicator phrases |
| JinaFetcher.FetchAllKeys | backend/jina_performance_optimization.py:142-159 | the result map's keys are exactly the input URLs |
| JinaFetcher.FetchAllSkipsBlocked | backend/jina_performance_optimization.py:142-159 | blocked URLs map to ""; the request log only grows, and only with listed, unblocked URLs |
| JinaFetcher.FetchAllOrigin | backend/jina_performance_optimization.py:142-159 | each URL's text comes from its own reply or its own earlier cache entry, so one URL's failure does not touch its siblings |
| JinaFetcher.FetchAllComplete | backend/jina_performance_optimization.py:142-159 | from a cache holding only the URLs' own accepted texts (an empty one, say), every unblocked URL's result is its own reply as accepted, a repeated URL included |
| JinaFetcher.FetchAllWellFormed | backend/jina_performance_optimization.py:100-121 | cached texts stay at least 100 long, so every non-empty batch result is too |
| JinaFetcher.Fetcher.constructor | backend/jina_performance_optimization.py:21-24 | a new fetcher has the given TTL, an empty cache and no requests |
| JinaFetcher.Fetcher.GetCachedContent | backend/jina_performance_optimization.py:41-52 | result and new cache are those of `CacheLookup` |
| JinaFetcher.Fetcher.CacheContent | backend/jina_performance_optimization.py:54-57 | the URL's key now holds the text and the time |
| JinaFetcher.Fetcher.FetchSingleUrl | backend/jina_performance_optimization.py:60-132 | result, cache and request log are those of `FetchOne` on the thread-pool path |
| JinaFetcher.Fetcher.FetchSingleAsync | backend/jina_performance_optimization.py:175-215 | result, cache and request log are those of `FetchOne` on the asyncio path |
| JinaFetcher.Fetcher.FetchUrlsParallel | backend/jina_performance_optimization.py:134-165 | the batch fold on the thread-pool path; one key per input URL |
| JinaFetcher.Fetcher.FetchUrlsAsync | backend/jina_performance_optimization.py:167-237 | the batch fold on the asyncio path; one key per input URL |
| ContentFilter.ScanIndicators | backend/jina_performance_optimization.py:107-118 | the early-exit loop reports a hit iff some indicator, lowercased, occurs in the lowercased text |
| NewsCrawler.NewsParams | backend/services/news_crawler.py:22-33 | exactly the six fixed keys with their values, plus `language` iff it is non-empty |
| NewsCrawler.HeadlinesParams | backend/services/news_crawler.py:63-70 | exactly `country`, `pageSize` and `apiKey`, plus `category` iff it is truthy |
| NewsCrawler.ConvertAllShape | backend/services/news_crawler.py:40-49 | conversion succeeds iff every article converts; then it is one-to-one and in order |
| NewsCrawler.MapArticles | backend/services/news_crawler.py:35-57 | the append loop returns the converted article list, and [] on any failure |
| NewsCrawler.ConvertAllFailsFrom | backend/services/news_crawler.py:40-57 | once a prefix fails to convert, the whole list does |
| NewsCrawler.FetchRssFeed | backend/services/news_crawler.py:156-173 | at most the first 10 entries, each mapped in order; [] when parsing fails |
| NewsCrawler.JinaResult | backend/services/news_crawler.py:108-154 | the result is non-empty iff the reply passes the HTTP, 451, length and indicator checks and is not a Yahoo home page; it is then the stripped body, at least 100 long |
| NewsCrawler.FetchWithJina | backend/services/news_crawler.py:96-154 | the method returns `JinaResult` of the proxy's answer |
| NewsCrawler.CrawlerRefinesFetcher | backend/services/news_crawler.py:123-148 | whatever the crawler accepts, the thread-pool fetcher accepts unchanged; they differ only on Yahoo home pages |
| MainContent.FirstMarker | backend/services/summarizer.py:26-30 | the first line at or after i holding "Markdown Content:", and no marker line before it |
| MainContent.HasMarkerStripped | backend/services/summarizer.py:27-28 | the marker neither starts nor ends with white space, so looking for it in the stripped line finds it exactly when it is in the raw line |
| MainContent.MainLinesPass | backend/services/summarizer.py:36-59 | every collected line passes the skip-pattern, length, leading-symbol and ASCII-navigation rules |
| MainContent.KeepRawLineNonEmpty | backend/services/summarizer.py:31-33 | a kept line never strips to nothing |
| MainContent.ScanSkipPatterns | backend/services/summarizer.py:43-48 | the early-exit scan reports a skip iff some skip pattern occurs in the line |
| MainContent.ShouldKeep | backend/services/summarizer.py:43-58 | the sequence of skip rules keeps exactly the lines of `KeepLine` |
| MainContent.CollectMainLines | backend/services/summarizer.py:22-64 | the nested loop collects `MainLines`: nothing without a marker line, else the kept lines after the first marker up to the cap |
| Picking.PickedIndicesLength | backend/services/summarizer.py:30-59 | one position per kept piece |
| Picking.PickedIndicesIncreasing | backend/services/summarizer.py:30-59 | kept pieces come from strictly increasing positions inside the list: they keep source order |
| Picking.PickedIndicesSound | backend/services/summarizer.py:30-59 | each kept piece is the stripped, accepted piece at its position |
| Picking.PickedIndicesComplete | backend/services/summarizer.py:30-59 | no accepted position is missed |
| Picking.PickedPrefix | backend/services/summarizer.py:30-59 | what is kept from a prefix is a prefix of what is kept from the whole |
| Picking.StopAt | backend/services/summarizer.py:61-63 | the cut is the first point at which the joined kept text exceeds the cap, or the end |
| Picking.CollectUntil | backend/services/summarizer.py:30-63 | the loop that skips blank pieces and stops once the joined text exceeds the cap returns `PickUntil` |
| Picking.CollectUntilOnAppend | backend/routes/news.py:111-115 | the sentence loop that checks the cap right after each append returns `PickUntil` |
| Picking.CollectAll | backend/routes/news.py:80-97 | the uncapped filter loop returns every accepted piece, stripped, in order |
| Picking.StopAtMonotone | backend/services/summarizer.py:61-63 | a larger cap never stops earlier |
| Picking.PickUntilMonotone | backend/services/summarizer.py:61-63 | what is kept under a smaller cap is a prefix of what is kept under a larger one |
| Picking.PickUntilIsPrefix | backend/services/summarizer.py:61-63 | stopping early only drops pieces from the end, and drops none when everything fits under the cap |
| Picking.PickedAll | backend/services/summarizer.py:58-59 | a property of every accepted piece, once stripped, holds of every kept piece |
| Picking.PickUntilAll | backend/services/summarizer.py:58-63 | the same for the pieces kept before the stop |
| Picking.PickUntilFrom | backend/routes/news.py:111-113 | each piece kept before the stop is some accepted piece, stripped |
| Summarizer.ExtractMainContent | backend/services/summarizer.py:20-66 | returns `CleanContent` of the input |
| Summarizer.CleanContentRaw | backend/services/summarizer.py:66 | without kept lines the result is the first 1000 characters of the raw content |
| Summarizer.CleanContentKept | backend/services/summarizer.py:58-66 | otherwise it is the kept lines joined by single spaces, each passing the filter |
| Summarizer.Fallback | backend/services/summarizer.py:70-72 | content that fits is returned unchanged; longer content becomes its first `max_length` characters plus "...", so at most `max_length + 3` long |
| Summarizer.PromptEmbeds | backend/services/summarizer.py:76-92 | the prompt contains the length limit, the title and the first 2000 characters of the cleaned content, never more of it |
| Summarizer.GenerateSummary | backend/services/summarizer.py:68-100 | no client or a failed call gives the fallback; otherwise the stripped answer to the prompt built from the cleaned content |
| Summarizer.WithSummary | backend/services/summarizer.py:107-112 | the article gains a `summary` key; every other key and its content are unchanged, whatever the summary step |
| Summarizer.Summarized | backend/services/summarizer.py:104-115 | never more articles than given |
| Summarizer.SummarizedSound | backend/services/summarizer.py:106-113 | for any summary step, every returned article is an input article with content, with its summary added |
| Summarizer.SummarizedComplete | backend/services/summarizer.py:106-113 | for any summary step, every input article with content comes back summarised |
| Summarizer.SummarizeArticle | backend/services/summarizer.py:106-113 | the loop body: adds the summary exactly when the article has content |
| Summarizer.BatchSummarize | backend/services/summarizer.py:102-115 | with `generate_summary` at length 200 as the summary step, every input article is updated in place, and the summarised ones are returned in order |
| NewsRoutes.ExtractRouteContent | backend/routes/news.py:12-59 | returns the route extractor's text |
| NewsRoutes.RouteMainContentEmpty | backend/routes/news.py:59 | the route extractor gives "" exactly when no line survives, not raw text |
| NewsRoutes.RouteLinesPrefixOfSummarizer | backend/routes/news.py:54-56 | with its 1000 cap it keeps a prefix of the lines the summariser's 1500-cap extractor keeps |
| NewsRoutes.FallbackCleanedLines | backend/routes/news.py:70-99 | every line the fallback cleaner keeps is non-empty, has no metadata pattern, is at least 10 long, and is not an ASCII navigation line longer than 20 |
| NewsRoutes.CleanRawLineNonEmpty | backend/routes/news.py:81-83 | an accepted line never strips to nothing |
| NewsRoutes.CleanFallback | backend/routes/news.py:70-99 | the cleaner loop returns the kept lines joined by spaces |
| NewsRoutes.EnsureFullStop | backend/routes/news.py:119-120 | the result ends with 。 and is the input, or the input plus 。 |
| NewsRoutes.SummaryFromTextEnds | backend/routes/news.py:102-127 | the summary of any working text ends with 。, or with "..." when it truncates |
| NewsRoutes.SmartSummaryEnds | backend/routes/news.py:61-127 | the smart summary always ends with 。, or with "..." when it truncates |
| NewsRoutes.KeySentencesFrom | backend/routes/news.py:106-115 | each key sentence is a piece of the 。！？ split, stripped, longer than 15 and holding a keyword |
| NewsRoutes.SummarizeText | backend/routes/news.py:102-127 | the method computes the summary of the working text |
| NewsRoutes.CreateSmartSummary | backend/routes/news.py:61-127 | returns the smart summary; when the working text is shorter than 50 it is exactly the title plus " - 詳細內容請點擊原文連結查看。" |
| NewsRoutes.FullContent | backend/routes/news.py:264-266 | the fetched text when non-empty, else the article's content or description |
| NewsRoutes.RouteDocsAppendOnly | backend/routes/news.py:250-293 | the loop only appends, at most one document per article |
| NewsRoutes.RouteDocsUrlsOnce | backend/routes/news.py:251-258 | a url is inserted at most once: no new document shares its url with any document before it |
| NewsRoutes.RouteDocsContent | backend/routes/news.py:269-291 | every added document has a non-empty url, more than 50 characters of text, and the summariser's summary of that text |
| NewsRoutes.ProcessArticle | backend/routes/news.py:251-293 | one article: the collection gains exactly the document `Insertion` gives, or stays unchanged |
| NewsRoutes.ProcessArticles | backend/routes/news.py:250-293 | the collection after the loop, and `processed` equals the number of inserts |
| NewsRoutes.FetchAndProcessNews | backend/routes/news.py:234-299 | no articles gives the 404 reply with the store unchanged; otherwise the loop runs, `processed` counts the inserts and `total_articles` the candidates |
| NewsRoutes.FetchTopHeadlines | backend/routes/news.py:154-227 | the same over the keyword search or the top-headlines answer, as `use_search` selects |
| NewsStore.FirstWithUrl | backend/routes/news.py:256 | a document is found iff some document has the url, and it is the first such document |
| NewsStore.Collection.constructor | backend/routes/news.py:237-238 | a new collection is empty |
| NewsStore.Collection.FindByUrl | backend/routes/news.py:256 | returns the first stored document with that url, or None when there is none |
| NewsStore.Collection.InsertOne | backend/routes/news.py:291 | the document, with its new `_id`, goes last and nothing else changes |
| NewsModel.NewItem | backend/models/news.py:5-12 | the fields are the arguments; both timestamps are the clock reading |
| NewsModel.ToDict | backend/models/news.py:14-23 | exactly the seven keys, each equal to its attribute |
| NewsModel.FromDict | backend/models/news.py:26-38 | the document's timestamps when present, the clock reading otherwise |
| NewsModel.FromDictToDict | backend/models/news.py:14-38 | `from_dict(to_dict(n))` gives back n, timestamps included |
| NewsModel.ToDictFromDict | backend/models/news.py:14-38 | a seven-key document is written back unchanged |
| NewsModel.SerializeForApi | backend/models/news.py:41-48 | it fails iff a required key is missing or a truthy `created_at` is not a datetime; otherwise exactly the five keys, id the text of `_id`, and `created_at` the ISO text or null |
| NewsModel.MissingKey | backend/models/news.py:43-46 | none exactly when every key is present; otherwise a listed key the document lacks |
| NewsModel.MissingKeyFirst | backend/models/news.py:43-46 | the key reported is the first missing one in reading order |
| NewsModel.SerializeForApiErrors | backend/models/news.py:41-48 | the exception text is the first missing key of `_id`, `title`, `summary`, `url`, quoted as a `KeyError` prints it, or else `'<type>' object has no attribute 'isoformat'` for a truthy `created_at` that is not a datetime |
| NewsModel.SerializeStoredItem | backend/models/news.py:40-48 | a stored item always serialises, with the ObjectId's text and the creation time's ISO form, and without source or original content |
| AsyncNews.TaskRegistry.constructor | backend/routes/async_news.py:27 | the registry starts empty |
| AsyncNews.TaskRegistry.Put | backend/routes/async_news.py:212-220 | the key holds the task; a new key goes last in the listing order |
| AsyncNews.TaskRegistry.SetTask | backend/routes/async_news.py:52-56 | a registered task is replaced, the order is unchanged, and the registry stays valid |
| AsyncNews.TaskRegistry.StartAsyncSearch | backend/routes/async_news.py:201-230 | registers a task in state `started` with progress 0, no articles and its own query; replies with its id, message and polling url |
| AsyncNews.TaskRegistry.GetSearchStatus | backend/routes/async_news.py:236-250 | the task for a registered id; "Task not found" otherwise |
| AsyncNews.TaskRegistry.ListSearchTasks | backend/routes/async_news.py:307-324 | one row per task in registration order, covering exactly the registered ids, and `total` equals their number |
| AsyncNews.TaskRegistry.CancelSearchTask | backend/routes/async_news.py:326-334 | a registered task gets status `cancelled` and the cancel message with nothing else changed; an unknown id is not found and nothing changes; the registry stays valid |
| AsyncNews.TaskRegistry.PaginatedSearch | backend/routes/async_news.py:273-301 | a background task is registered iff fewer than `per_page` stored matches were found, and nothing changes otherwise; the matches are returned at once with their count and message |
| AsyncNews.Pending | backend/routes/async_news.py:82-95 | never more candidates than were found |
| AsyncNews.ContentsAreReplies | backend/routes/async_news.py:120-142 | every pending url has a fetched text: "" when blocked, otherwise its reply as the cooperative path accepts it |
| AsyncNews.PendingSound | backend/routes/async_news.py:85-95 | every pending candidate has a url that is not stored |
| AsyncNews.PendingComplete | backend/routes/async_news.py:85-95 | every candidate with a url that is not stored is pending |
| AsyncNews.PendingKeepsRepeats | backend/routes/async_news.py:82-95 | two new candidates with the same url are both pending |
| AsyncNews.FilterArticles | backend/routes/async_news.py:82-95 | the filter loop returns the pending candidates in order |
| AsyncNews.ExistingErrSticks | backend/routes/async_news.py:99-104 | after one serialisation fails, later candidates do not change the outcome |
| AsyncNews.CollectExisting | backend/routes/async_news.py:99-104 | the loop returns the stored matches serialised, or the first failure |
| AsyncNews.TickProgress | backend/routes/async_news.py:176-178 | the progress after an insert is at least 75 |
| AsyncNews.TickProgressRises | backend/routes/async_news.py:176-178 | a later insert never reports less progress |
| AsyncNews.TicksAtMost95 | backend/routes/async_news.py:176-178 | the progress after an insert is at most 95 |
| AsyncNews.ItemDocUrl | backend/routes/async_news.py:160-170 | the stored document carries the candidate's url |
| AsyncNews.StepAppends | backend/routes/async_news.py:140-180 | one pass changes nothing, or appends exactly one long document, its serialisation and its progress update |
| AsyncNews.InsertedCounts | backend/routes/async_news.py:140-180 | the loop only appends, with one document, one entry and one progress update per insert, and only documents with more than 50 characters of text |
| AsyncNews.InsertedEntries | backend/routes/async_news.py:169-173 | every returned entry is the successful serialisation of the document stored with it |
| AsyncNews.StepTicks | backend/routes/async_news.py:175-180 | one pass adds at most its own progress update |
| AsyncNews.TicksBounded | backend/routes/async_news.py:176-180 | progress updates stay between 75 and the value for the last candidate handled |
| AsyncNews.TicksRise | backend/routes/async_news.py:140-180 | progress updates never decrease |
| AsyncNews.TicksLog | backend/routes/async_news.py:130-190 | 75, then the updates, then 100 form a well-formed non-decreasing log |
| AsyncNews.ExistingErrOrigin | backend/routes/async_news.py:99-104 | a failed lookup carries the exception of serialising one of the stored documents |
| AsyncNews.ProcessFailureText | backend/routes/async_news.py:192-199 | a failed run records the exception's text as its error and reports it after "處理失敗: "; the text is that of serialising a stored document |
| AsyncNews.ProcessEnds | backend/routes/async_news.py:43-199 | a run always ends `completed` or `error` with progress 100, whatever the status was; id, query and start time are kept |
| AsyncNews.NoArticlesCompletes | backend/routes/async_news.py:62-69 | no candidates gives `completed`, progress 100, no articles, an unchanged store and the log 10, 100 |
| AsyncNews.NothingNewStoresNothing | backend/routes/async_news.py:97-112 | when nothing is new, nothing is stored; a completed run returns at most 10 stored articles; a failed one records its error |
| AsyncNews.SummarizedTotals | backend/routes/async_news.py:140-190 | `total_processed` equals the returned articles and the new documents; `total_found` is the candidate count; every new document has more than 50 characters |
| AsyncNews.ProcessStoresLong | backend/routes/async_news.py:140-173 | a run only appends to the store, and only documents with more than 50 characters of text |
| AsyncNews.SummarizedLog | backend/routes/async_news.py:130-190 | from the summarise stage on, the progress runs from 75 to 100 without decreasing |
| AsyncNews.FilteredLog | backend/routes/async_news.py:72-190 | from the filter stage on, the progress runs from 30 to 100 without decreasing |
| AsyncNews.ProcessLog | backend/routes/async_news.py:52-199 | the progress of a run starts at 10, ends at 100, never decreases and stays within 10..100 |
| AsyncNews.RepeatedUrlStoredTwice | backend/routes/async_news.py:82-173 | two new candidates with the same url and enough text are both stored |
| AsyncNews.RunSearch | backend/routes/async_news.py:43-199 | the task, the store and the progress log end as `Process` says; other tasks and the order are unchanged, and the registry stays valid |
| AsyncNews.FilterAndGenerate | backend/routes/async_news.py:78-112 | the stages from the filter on, as `Filtered` says |
| AsyncNews.GenerateSummaries | backend/routes/async_news.py:114-134 | the fetch stage with a fresh fetcher (cache lifetime 3600 s), then the summarise stage |
| AsyncNews.Summarize | backend/routes/async_news.py:136-190 | the summarise-and-store stage and the final update, as `Summarized` says |
| AsyncNews.InsertPending | backend/routes/async_news.py:140-180 | the loop's store, entries and updates are those of `Inserted`; the task shows the last update |
| AsyncNews.InsertStep | backend/routes/async_news.py:140-180 | one pass of the loop, as `Step` says |
| AsyncNews.StoreItem | backend/routes/async_news.py:142-173 | a candidate with more than 50 characters of text is summarised and stored last; otherwise nothing changes |
| Tts.RatioAboveThreeTenths | backend/services/tts_service.py:45-46 | the ratio test against 0.3 is the integer test 10·cjk > 3·alnum |
| Tts.DetectLanguageRatio | backend/services/tts_service.py:34-46 | Chinese without alphanumeric characters; otherwise Chinese iff CJK/alnum > 0.3, English when not |
| Tts.CjkWithinAlnum | backend/services/tts_service.py:39-40 | CJK characters are counted among the alphanumeric ones |
| Tts.AllCjkIsChinese | backend/services/tts_service.py:39-46 | non-empty CJK-only text is read as Chinese |
| Tts.NoCjkIsEnglish | backend/services/tts_service.py:39-46 | text with alphanumeric characters but no CJK is read as English |
| Tts.ChineseStaysChinese | backend/services/tts_service.py:39-46 | appending CJK characters to Chinese text keeps it Chinese |
| Tts.GetVoiceConfig | backend/services/tts_service.py:48-65 | "en-US" gives the English voice; every other code gives the Taiwanese Mandarin voice, always female |
| Tts.SynthesisRequest | backend/services/tts_service.py:78-101 | fails without a client or for blank text; the language is detected only when none or "" is given |
| Tts.Synthesize | backend/services/tts_service.py:67-127 | succeeds iff the guards pass and the service answers the request; a guard's failure is passed on, and a refused request fails with "語音合成失敗: " and the service's error text |
| Tts.NewsScript | backend/services/tts_service.py:139-154 | rejected iff both title and summary are empty; otherwise ends with 。 |
| Tts.NewsScriptShape | backend/services/tts_service.py:146-154 | the labelled title and summary that are present, in that order, each followed by 。 |
| Tts.NewsScriptNotBlank | backend/services/tts_service.py:146-154 | a script never strips to nothing |
| Tts.NewsAudioGuards | backend/services/tts_service.py:129-158 | a scripted news item passes the synthesis guards iff there is a client |
| Tts.SliceFailure | backend/services/tts_service.py:156 | `title[:50]` fails exactly when the title is neither a string nor a list, with Python's TypeError text |
| Tts.NewsAudio | backend/services/tts_service.py:129-158 | a news item without title and summary is rejected; a title that cannot be sliced fails with its TypeError; otherwise it succeeds iff the script's synthesis does, reading the script in the detected language |
| Tts.PlaylistSegments | backend/services/tts_service.py:160-242 | an empty playlist is rejected; otherwise it fails only when the introduction or the closing words fail |
| Tts.CreatePlaylistAudio | backend/services/tts_service.py:160-242 | the entry loop gives `PlaylistSegments` |
| Tts.Assemble | backend/services/tts_service.py:179-221 | the introduction and closing words around the entries' segments give `PlaylistSegments` |
| Tts.GoodEntrySegments | backend/services/tts_service.py:191-214 | with a working service, an entry with a title or summary and a sliceable title adds its announcement, a pause, its news, and a pause unless it is last |
| Tts.GoodEntriesLength | backend/services/tts_service.py:191-214 | four segments per good entry (a title or summary, and a sliceable title), one fewer for the last |
| Tts.FailedEntryKeepsAnnouncement | backend/services/tts_service.py:191-214 | with a working service, any other entry (no news item, no title or summary, a null or numeric title) keeps only its announcement and the pause after it |
| Tts.HealthyEntriesLength | backend/services/tts_service.py:191-214 | two segments per entry, two more per good entry, one fewer when the last entry is good |
| Tts.HealthyPlaylistCount | backend/services/tts_service.py:179-221 | with a working service the recording always succeeds, with 2·n + 2·good + 4 segments, one fewer when the last entry is good |
| Tts.HealthyPlaylistLength | backend/services/tts_service.py:179-221 | with a working service and only good entries the recording succeeds with 4·n + 3 segments |
| PerfMiddleware.BodySize | backend/middleware/performance_middleware.py:74-86 | a non-zero content length, otherwise the body's length |
| PerfMiddleware.NewMetric | backend/middleware/performance_middleware.py:65-102 | success iff 200 ≤ status < 400; the duration is end minus start; the endpoint falls back to "unknown" |
| PerfMiddleware.Logged | backend/middleware/performance_middleware.py:116-119 | the new metric is last; the buffer stays within 1000, losing exactly the oldest when full |
| PerfMiddleware.Latest | backend/middleware/performance_middleware.py:140 | the last n elements, or all of them when fewer |
| PerfMiddleware.LoggedLatest | backend/middleware/performance_middleware.py:116-119 | logging onto the latest 1000 gives the latest 1000 of the longer run |
| PerfMiddleware.LoggedAllStep | backend/middleware/performance_middleware.py:116-119 | one more metric keeps the buffer equal to the latest metrics |
| PerfMiddleware.LoggedAllKeepsLatest | backend/middleware/performance_middleware.py:116-119 | whatever was logged, the buffer holds exactly the latest 1000 metrics, oldest first |
| PerfMiddleware.SuccessesWithin | backend/middleware/performance_middleware.py:164-170 | an endpoint's successes never exceed its count |
| PerfMiddleware.TallyOrdered | backend/middleware/performance_middleware.py:155-162 | counting a metric keeps every endpoint listed once |
| PerfMiddleware.TallyCounts | backend/middleware/performance_middleware.py:164-170 | counting a metric keeps each entry equal to its endpoint's count, successes and errors |
| PerfMiddleware.TallySum | backend/middleware/performance_middleware.py:153-170 | counting a metric keeps the counts summing to the window size |
| PerfMiddleware.TallyDescribes | backend/middleware/performance_middleware.py:153-170 | counting a metric keeps the table describing the window |
| PerfMiddleware.AggregateDescribes | backend/middleware/performance_middleware.py:153-170 | one entry per endpoint seen; count = successes + errors; the counts sum to the window size |
| PerfMiddleware.AggregateEndpoints | backend/middleware/performance_middleware.py:153-170 | the endpoint loop builds `Aggregate` |
| PerfMiddleware.AlertsFor | backend/middleware/performance_middleware.py:229-268 | at most two alerts per endpoint, all about that endpoint |
| PerfMiddleware.AlertsForJustified | backend/middleware/performance_middleware.py:229-268 | each alert matches its threshold; a latency alert iff average > 5, a success-rate alert iff count ≥ 5 and rate < 0.95; never two of one sort |
| PerfMiddleware.AlertsAbout | backend/middleware/performance_middleware.py:225-270 | the alerts about a listed endpoint are exactly its own; none for unlisted ones |
| PerfMiddleware.GenerateAlerts | backend/middleware/performance_middleware.py:225-270 | the alert loop builds `Alerts` in table order |
| PerfMiddleware.Successes | backend/middleware/performance_middleware.py:144 | never more successes than metrics |
| PerfMiddleware.MaxDuration | backend/middleware/performance_middleware.py:149 | at least every duration, and equal to one of them |
| PerfMiddleware.MinDuration | backend/middleware/performance_middleware.py:150 | at most every duration, and equal to one of them |
| PerfMiddleware.Failures | backend/middleware/performance_middleware.py:185-194 | never more error entries than metrics |
| PerfMiddleware.FailuresFailed | backend/middleware/performance_middleware.py:185-194 | every error entry comes from a failed metric |
| PerfMiddleware.DashboardWindowCounts | backend/middleware/performance_middleware.py:128-170 | data iff the buffer is non-empty; then at most the latest 100, with endpoint counts summing to that number |
| PerfMiddleware.DashboardRecentErrors | backend/middleware/performance_middleware.py:185-194 | at most 20 recent errors, each a failed metric among the latest 20 of the window |
| PerfMiddleware.Monitor.constructor | backend/middleware/performance_middleware.py:21 | the buffer starts empty |
| PerfMiddleware.Monitor.LogRequestPerformance | backend/middleware/performance_middleware.py:60-119 | nothing without a start time; otherwise the buffer becomes `Logged` and stays within 1000 |
| PerfMiddleware.Monitor.RecentMetrics | backend/middleware/performance_middleware.py:214-223 | a tail of the buffer: the last `limit` for a positive limit, all of it for 0, all but `-limit` from the front for a negative limit |
| PerfMiddleware.Monitor.GetPerformanceDashboard | backend/middleware/performance_middleware.py:128-212 | the loops compute `DashboardOf` the buffer |

## Left out

- The network, the language model, the speech service, MongoDB, Flask (request parsing, `jsonify`, status codes) and logging are not modelled. They are parameters or values, as described above. The 500 replies on unexpected exceptions are not modelled.
- Threads, asyncio and locks are not modelled: `ThreadPoolExecutor`, `asyncio.gather`, `run_async_in_thread` and `metrics_lock`. A batch fetch is a sequential fold in list order, and the worker runs to completion when called.
- Clocks and identity sources are not modelled: `time.time()`, `datetime.now()`, `utcnow()`, `uuid4()` and `ObjectId()`. Times and ids are parameters. A stored document's `_id` is its position in the collection.
- NewsModel.NewItem: `models/news.py` reads `utcnow()` twice, once for `created_at` and once for `updated_at`; the model uses one reading for both. The route loop and the worker also use one reading for every item they store.
- The regex query, sort and limit of `paginated_search` are not modelled. Its stored matches are an input.
- The `page_size` argument of the worker is not modelled: it only reaches the News API request.
- Audio decoding, mixing and MP3 export are not modelled. A playlist is modelled as its sequence of utterances and pauses.
- The alert message texts and the float formatting of durations are not modelled. The `monitor_performance` decorator is not modelled. A metric's user agent, remote address, query parameters and JSON body are not modelled.
- `str.lower()` is modelled on ASCII letters only.
- `\s` and `\d` of the ASCII-navigation regex are modelled as Python white space and ASCII digits.
- `str.isalnum()` is a parameter that is assumed to accept CJK ideographs.
- JinaFetcher.CacheKey: Python's per-process `hash(url)` is modelled as an injective key.
- AsyncNews.TickProgress: the progress `int(75 + (i+1)/n*20)` is computed with exact integer floor division, not float arithmetic. The two can differ by one where the float quotient rounds just below an integer.
- Tts.DetectLanguageRatio: the ratio is compared as an exact rational, not as a float.
- PerfMiddleware.NewMetric: durations are exact reals, with no float rounding.
- PerfMiddleware.Monitor.LogRequestPerformance: the file log of every metric and the slow-request warning are not modelled.
- NewsRoutes.CreateSmartSummary: its own `except` branch is not modelled. The functions it calls do not raise on string input.
- AsyncNews.RunSearch: the `create_smart_summary` fallback after a failed `generate_summary` is not modelled, because `generate_summary` never raises. The exception handler is modelled only for the failures it can meet here: serialising a stored document that lacks a required field or whose truthy creation time is not a datetime.
- Tts.NewsScript: a title or summary that is a list or a dict is read out as "" instead of Python's repr of it (`['a']`); other non-string values are rendered as `str()` renders them.
- Tts.NewsScriptShape: the same rendering of list and dict titles and summaries as `Tts.NewsScript`.
- Tts.NewsAudio: the script it synthesises has the same rendering of list and dict titles and summaries as `Tts.NewsScript`.
- Summarizer.SummarizeArticle: a content or title that is not a string is converted to text first, as `PyValue.Text` does (a list or dict gives ""). Python instead passes the raw value. A non-string content then raises, or a list content comes back as its own summary, and a list title reaches the prompt as its repr.
- Summarizer.BatchSummarize: the same conversion of non-string contents and titles as `Summarizer.SummarizeArticle`.
- NewsModel.SerializeForApi: the id is `str()` of `_id` for scalar values; a list or dict `_id` gives "" instead of its repr.
- PerfMiddleware.BodySize: the body is counted in characters, where `len(request.data)` counts bytes.
- PyValue.AsOption: a JSON field documented as string-or-null that holds another kind of value (a number, a list) is read as absent.
- Tts.SliceFailure: a dict title fails with the text Python gives before 3.12 ("unhashable type: 'slice'"); from 3.12 on the exception is a `KeyError`. Either way the news item fails.
- Tts.Synthesize: the text of the speech service's own exception is a parameter of the service.
