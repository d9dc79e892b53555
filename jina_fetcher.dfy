/**
 * OptimizedJinaFetcher: the blocked-URL filter, the TTL response cache with lazy
 * expiry, the single-URL fetch with its post-response validation, and the two
 * batch collectors (thread pool and asyncio), both run here as a sequential
 * fold over the URL list.
 *
 * The network is the function `net` from a URL to what the proxy answers; the
 * clock is the explicit `now`. The field `requests` of a Fetcher is the log of
 * URLs handed to the proxy, so that "no network call" can be stated.
 */
module JinaFetcher {
  import opened Results
  import opened PyText
  import opened ContentFilter

  const BlockedPatterns: seq<string> := [
    "consent.yahoo.com",
    "collectConsent",
    "privacy-policy",
    "cookie-policy",
    "terms-of-service"
  ]

  /** `any(pattern in url.lower() for pattern in blocked_patterns)`. */
  predicate IsBlockedUrl(url: string)
  {
    ContainsAny(Lower(url), BlockedPatterns)
  }

  /**
   * The URL is lowered but the patterns are not, so "collectConsent" (capital C)
   * never matches: exactly the four other patterns block a URL.
   */
  lemma BlockedUrlPatterns(url: string)
    ensures IsBlockedUrl(url) <==>
      Contains(Lower(url), "consent.yahoo.com") || Contains(Lower(url), "privacy-policy")
      || Contains(Lower(url), "cookie-policy") || Contains(Lower(url), "terms-of-service")
  {
    assert "collectConsent"[7] == 'C';
    LowerMissesCapitals(url, "collectConsent", 7);
    if IsBlockedUrl(url) {
      var i :| 0 <= i < |BlockedPatterns| && Contains(Lower(url), BlockedPatterns[i]);
      assert i != 1;
    } else {
      assert !Contains(Lower(url), BlockedPatterns[0]);
      assert !Contains(Lower(url), BlockedPatterns[2]);
      assert !Contains(Lower(url), BlockedPatterns[3]);
      assert !Contains(Lower(url), BlockedPatterns[4]);
    }
  }

  datatype CacheEntry = CacheEntry(content: string, timestamp: int)

  type Cache = map<string, CacheEntry>

  /** Stands for `f"jina_cache_{hash(url)}"`, taking the hash to be injective. */
  function CacheKey(url: string): string
  {
    "jina_cache_" + url
  }

  lemma CacheKeyInjective(u: string, v: string)
    ensures CacheKey(u) == CacheKey(v) ==> u == v
  {
    if CacheKey(u) == CacheKey(v) {
      assert u == CacheKey(u)[11..];
      assert v == CacheKey(v)[11..];
    }
  }

  /** What get_cached_content returns, and the cache it leaves behind. */
  datatype Lookup = Lookup(hit: Option<string>, cache: Cache)

  /**
   * get_cached_content: a fresh entry (younger than ttl) is returned and the
   * cache is untouched; otherwise exactly that key is deleted.
   */
  function CacheLookup(cache: Cache, ttl: int, url: string, now: int): (r: Lookup)
    ensures r.hit.Some? <==> CacheKey(url) in cache && now - cache[CacheKey(url)].timestamp < ttl
    ensures r.hit.Some? ==> r.hit.value == cache[CacheKey(url)].content && r.cache == cache
    ensures r.hit.None? ==> r.cache == cache - {CacheKey(url)}
    ensures forall k :: k in cache && k != CacheKey(url) ==> k in r.cache && r.cache[k] == cache[k]
  {
    var key := CacheKey(url);
    if key in cache && now - cache[key].timestamp < ttl then Lookup(Some(cache[key].content), cache)
    else Lookup(None, cache - {key})
  }

  /** cache_content. */
  function CacheStore(cache: Cache, url: string, content: string, now: int): Cache
  {
    cache[CacheKey(url) := CacheEntry(content, now)]
  }

  /** Storing at time t and reading at t' with t' - t < ttl gives the stored text back. */
  lemma CacheRoundTrip(cache: Cache, ttl: int, url: string, content: string, t: int, t': int)
    requires t' - t < ttl
    ensures CacheLookup(CacheStore(cache, url, content, t), ttl, url, t') == Lookup(Some(content), CacheStore(cache, url, content, t))
  {
  }

  /** Every cached text is at least MinLength long. */
  ghost predicate WellFormed(cache: Cache)
  {
    forall k :: k in cache ==> |cache[k].content| >= MinLength
  }

  /** fetch_single_url after the request: what it returns for the proxy's answer. */
  function ThreadPoolAccept(t: Transport): (r: string)
    ensures r != "" <==>
      t.Reply? && !IsHttpError(t.status) && !IsBlockedNotice(t)
      && |Strip(t.body)| >= MinLength && !HasIndicator(Lower(Strip(t.body)))
    ensures r != "" ==> r == Strip(t.body)
  {
    match t
    case Reply(status, _, body, _) =>
      if IsHttpError(status) then ""
      else if IsBlockedNotice(t) then ""
      else
        var content := Strip(body);
        if |content| < MinLength then ""
        else if HasIndicator(Lower(content)) then ""
        else content
    case _ => ""
  }

  /** fetch_single_async after the request: only status 200 and the length are checked. */
  function AsyncAccept(t: Transport): (r: string)
    ensures r != "" <==> t.Reply? && t.status == 200 && |Strip(t.body)| >= MinLength
    ensures r != "" ==> r == Strip(t.body)
  {
    if t.Reply? && t.status == 200 && |Strip(t.body)| >= MinLength then Strip(t.body) else ""
  }

  /**
   * The asyncio path keeps a body that the thread-pool path rejects for an
   * indicator phrase or a code-451 notice.
   */
  lemma AsyncSkipsIndicatorAndBlockChecks(t: Transport)
    requires t.Reply? && t.status == 200 && |Strip(t.body)| >= MinLength
    requires HasIndicator(Lower(Strip(t.body))) || IsBlockedNotice(t)
    ensures AsyncAccept(t) == Strip(t.body) != ""
    ensures ThreadPoolAccept(t) == ""
  {
  }

  /** The two batch strategies. */
  datatype Path = ThreadPool | Cooperative

  function Accept(path: Path, t: Transport): (r: string)
    ensures r != "" ==> |r| >= MinLength
  {
    match path
    case ThreadPool => ThreadPoolAccept(t)
    case Cooperative => AsyncAccept(t)
  }

  /** The fetcher's state: its cache and the log of requests sent to the proxy. */
  datatype FetchState = FetchState(cache: Cache, requests: seq<string>)

  datatype Fetched = Fetched(content: string, state: FetchState)

  /** The cache holds a fresh, non-empty entry for `url`: the fetch is answered without a request. */
  predicate FreshHit(cache: Cache, ttl: int, url: string, now: int)
  {
    CacheKey(url) in cache && now - cache[CacheKey(url)].timestamp < ttl && cache[CacheKey(url)].content != ""
  }

  /**
   * One URL on either path: blocked URLs give "" at once; a fresh non-empty
   * cache entry is returned without a request; otherwise one request is made and
   * an accepted body is cached.
   */
  function FetchOne(st: FetchState, ttl: int, path: Path, url: string, net: string -> Transport, now: int): (f: Fetched)
    ensures IsBlockedUrl(url) ==> f == Fetched("", st)
    ensures !IsBlockedUrl(url) && FreshHit(st.cache, ttl, url, now) ==> f == Fetched(st.cache[CacheKey(url)].content, st)
    ensures !IsBlockedUrl(url) && !FreshHit(st.cache, ttl, url, now) ==>
      f.content == Accept(path, net(url)) && f.state.requests == st.requests + [url]
    ensures f.state.requests == st.requests || (!IsBlockedUrl(url) && f.state.requests == st.requests + [url])
    ensures f.content != "" ==>
      f.content == Accept(path, net(url))
      || (CacheKey(url) in st.cache && f.content == st.cache[CacheKey(url)].content)
    ensures forall k :: k in f.state.cache ==>
      (k in st.cache && f.state.cache[k] == st.cache[k])
      || (k == CacheKey(url) && f.state.cache[k] == CacheEntry(Accept(path, net(url)), now) && Accept(path, net(url)) != "")
    ensures WellFormed(st.cache) ==> WellFormed(f.state.cache)
  {
    if IsBlockedUrl(url) then Fetched("", st)
    else
      var lk := CacheLookup(st.cache, ttl, url, now);
      if lk.hit.Some? && lk.hit.value != "" then Fetched(lk.hit.value, st.(cache := lk.cache))
      else
        var body := Accept(path, net(url));
        var requests := st.requests + [url];
        if body != "" then Fetched(body, FetchState(CacheStore(lk.cache, url, body, now), requests))
        else Fetched("", FetchState(lk.cache, requests))
  }

  /**
   * A miss whose reply is accepted writes it under the URL's key with the time
   * of the fetch, and every other entry survives.
   */
  lemma FetchOneCaches(st: FetchState, ttl: int, path: Path, url: string, net: string -> Transport, now: int)
    ensures var f := FetchOne(st, ttl, path, url, net, now);
      && (!IsBlockedUrl(url) && !FreshHit(st.cache, ttl, url, now) && Accept(path, net(url)) != "" ==>
            CacheKey(url) in f.state.cache && f.state.cache[CacheKey(url)] == CacheEntry(Accept(path, net(url)), now))
      && (forall k :: k in st.cache && k != CacheKey(url) ==> k in f.state.cache && f.state.cache[k] == st.cache[k])
  {
  }

  /**
   * A reply fetched and cached at `now` answers the same URL again, with no
   * request and no change, until `ttl` has passed.
   */
  lemma RefetchWithinTtl(st: FetchState, ttl: int, path: Path, url: string, net: string -> Transport, now: int, later: int)
    requires !IsBlockedUrl(url) && !FreshHit(st.cache, ttl, url, now) && Accept(path, net(url)) != ""
    requires later - now < ttl
    ensures var f := FetchOne(st, ttl, path, url, net, now);
      f.content == Accept(path, net(url)) && FetchOne(f.state, ttl, path, url, net, later) == f
  {
    var f := FetchOne(st, ttl, path, url, net, now);
    FetchOneCaches(st, ttl, path, url, net, now);
    assert FreshHit(f.state.cache, ttl, url, later);
  }

  /** A blocked URL is answered "" with no cache read, no request and no cache change. */
  lemma BlockedUrlSkipsEverything(st: FetchState, ttl: int, path: Path, url: string, net: string -> Transport, now: int)
    requires IsBlockedUrl(url)
    ensures FetchOne(st, ttl, path, url, net, now) == Fetched("", st)
  {
  }

  /** On the thread-pool path only validated text enters the cache. */
  lemma ThreadPoolCachesOnlyValidText(st: FetchState, ttl: int, url: string, net: string -> Transport, now: int)
    ensures var c := FetchOne(st, ttl, ThreadPool, url, net, now).state.cache;
      forall k :: k in c && !(k in st.cache && c[k] == st.cache[k]) ==>
        |c[k].content| >= MinLength && !HasIndicator(Lower(c[k].content)) && c[k].content == Strip(c[k].content)
  {
    var c := FetchOne(st, ttl, ThreadPool, url, net, now).state.cache;
    var t := net(url);
    forall k | k in c && !(k in st.cache && c[k] == st.cache[k])
      ensures |c[k].content| >= MinLength && !HasIndicator(Lower(c[k].content)) && c[k].content == Strip(c[k].content)
    {
      var body := ThreadPoolAccept(t);
      assert c[k].content == body != "";
      assert body == Strip(t.body);
      StripIdempotent(t.body);
    }
  }

  /** The results map and the state after a batch, URL by URL in list order. */
  datatype Batch = Batch(results: map<string, string>, state: FetchState)

  function FetchAll(st: FetchState, ttl: int, path: Path, urls: seq<string>, net: string -> Transport, now: int): Batch
    decreases |urls|
  {
    if urls == [] then Batch(map[], st)
    else
      var prev := FetchAll(st, ttl, path, urls[..|urls| - 1], net, now);
      var url := urls[|urls| - 1];
      var f := FetchOne(prev.state, ttl, path, url, net, now);
      Batch(prev.results[url := f.content], f.state)
  }

  /** Every cache entry for a URL is either untouched since `c0` or that URL's own accepted body. */
  ghost predicate Explained(c: Cache, c0: Cache, path: Path, net: string -> Transport)
  {
    forall v {:trigger CacheKey(v)} :: CacheKey(v) in c ==>
      (CacheKey(v) in c0 && c[CacheKey(v)] == c0[CacheKey(v)])
      || c[CacheKey(v)].content == Accept(path, net(v))
  }

  /** The batch result is total over the input URLs: its keys are exactly the URLs given. */
  lemma {:induction false} FetchAllKeys(st: FetchState, ttl: int, path: Path, urls: seq<string>, net: string -> Transport, now: int)
    ensures FetchAll(st, ttl, path, urls, net, now).results.Keys == set u | u in urls
    decreases |urls|
  {
    if urls != [] {
      var init := urls[..|urls| - 1];
      var url := urls[|urls| - 1];
      FetchAllKeys(st, ttl, path, init, net, now);
      var prev := FetchAll(st, ttl, path, init, net, now);
      var f := FetchOne(prev.state, ttl, path, url, net, now);
      assert FetchAll(st, ttl, path, urls, net, now).results == prev.results[url := f.content];
      assert urls == init + [url];
      assert (set u | u in urls) == (set u | u in init) + {url};
    }
  }

  /** Blocked URLs map to "", and requests go only to listed, unblocked URLs, after the earlier ones. */
  lemma {:induction false} FetchAllSkipsBlocked(st: FetchState, ttl: int, path: Path, urls: seq<string>, net: string -> Transport, now: int)
    ensures var b := FetchAll(st, ttl, path, urls, net, now);
      && (forall u :: u in b.results && IsBlockedUrl(u) ==> b.results[u] == "")
      && |st.requests| <= |b.state.requests| && b.state.requests[..|st.requests|] == st.requests
      && (forall i :: |st.requests| <= i < |b.state.requests| ==>
            b.state.requests[i] in urls && !IsBlockedUrl(b.state.requests[i]))
    decreases |urls|
  {
    if urls != [] {
      var init := urls[..|urls| - 1];
      var url := urls[|urls| - 1];
      FetchAllSkipsBlocked(st, ttl, path, init, net, now);
      var prev := FetchAll(st, ttl, path, init, net, now);
      var f := FetchOne(prev.state, ttl, path, url, net, now);
      forall i | |st.requests| <= i < |f.state.requests|
        ensures f.state.requests[i] in urls && !IsBlockedUrl(f.state.requests[i])
      {
        if i < |prev.state.requests| {
          assert f.state.requests[i] == prev.state.requests[i];
          assert prev.state.requests[i] in init;
        }
      }
    }
  }

  /**
   * A URL's text comes only from its own response or its own cache entry as it
   * was before the batch: one URL's failure does not touch its siblings.
   */
  lemma {:induction false} FetchAllOrigin(st: FetchState, ttl: int, path: Path, urls: seq<string>, net: string -> Transport, now: int)
    ensures var b := FetchAll(st, ttl, path, urls, net, now);
      && Explained(b.state.cache, st.cache, path, net)
      && (forall u :: u in b.results && b.results[u] != "" ==>
            b.results[u] == Accept(path, net(u))
            || (CacheKey(u) in st.cache && b.results[u] == st.cache[CacheKey(u)].content))
    decreases |urls|
  {
    if urls != [] {
      var init := urls[..|urls| - 1];
      var url := urls[|urls| - 1];
      FetchAllOrigin(st, ttl, path, init, net, now);
      var prev := FetchAll(st, ttl, path, init, net, now);
      var f := FetchOne(prev.state, ttl, path, url, net, now);
      forall v | CacheKey(v) in f.state.cache
        ensures (CacheKey(v) in st.cache && f.state.cache[CacheKey(v)] == st.cache[CacheKey(v)])
                || f.state.cache[CacheKey(v)].content == Accept(path, net(v))
      {
        if !(CacheKey(v) in prev.state.cache && f.state.cache[CacheKey(v)] == prev.state.cache[CacheKey(v)]) {
          CacheKeyInjective(v, url);
        }
      }
    }
  }

  /**
   * When every cached entry is its own URL's accepted body (an empty cache, for
   * one), each unblocked URL's result is exactly its own response, accepted: a
   * repeated URL is answered from the cache with the same text.
   */
  lemma {:induction false} FetchAllComplete(st: FetchState, ttl: int, path: Path, urls: seq<string>, net: string -> Transport, now: int)
    requires Explained(st.cache, map[], path, net)
    ensures var b := FetchAll(st, ttl, path, urls, net, now);
      && Explained(b.state.cache, map[], path, net)
      && (forall u :: u in urls && !IsBlockedUrl(u) ==> u in b.results && b.results[u] == Accept(path, net(u)))
    decreases |urls|
  {
    if urls != [] {
      var init := urls[..|urls| - 1];
      var url := urls[|urls| - 1];
      FetchAllComplete(st, ttl, path, init, net, now);
      var prev := FetchAll(st, ttl, path, init, net, now);
      var f := FetchOne(prev.state, ttl, path, url, net, now);
      assert FetchAll(st, ttl, path, urls, net, now) == Batch(prev.results[url := f.content], f.state);
      if !IsBlockedUrl(url) {
        if FreshHit(prev.state.cache, ttl, url, now) {
          assert f.content == prev.state.cache[CacheKey(url)].content;
        }
        assert f.content == Accept(path, net(url));
      }
      forall v | CacheKey(v) in f.state.cache
        ensures f.state.cache[CacheKey(v)].content == Accept(path, net(v))
      {
        if !(CacheKey(v) in prev.state.cache && f.state.cache[CacheKey(v)] == prev.state.cache[CacheKey(v)]) {
          CacheKeyInjective(v, url);
        }
      }
      forall u | u in urls && !IsBlockedUrl(u)
        ensures u in prev.results[url := f.content] && prev.results[url := f.content][u] == Accept(path, net(u))
      {
        if u != url {
          assert u in init;
        }
      }
    }
  }

  /** Cached texts stay at least MinLength long, so every non-empty result is too. */
  lemma {:induction false} FetchAllWellFormed(st: FetchState, ttl: int, path: Path, urls: seq<string>, net: string -> Transport, now: int)
    requires WellFormed(st.cache)
    ensures var b := FetchAll(st, ttl, path, urls, net, now);
      && WellFormed(b.state.cache)
      && forall u :: u in b.results && b.results[u] != "" ==> |b.results[u]| >= MinLength
    decreases |urls|
  {
    if urls != [] {
      FetchAllWellFormed(st, ttl, path, urls[..|urls| - 1], net, now);
    }
  }

  class Fetcher {
    const ttl: int
    var cache: Cache
    var requests: seq<string>

    constructor (cacheTtl: int)
      ensures ttl == cacheTtl && cache == map[] && requests == []
    {
      ttl := cacheTtl;
      cache := map[];
      requests := [];
    }

    function State(): FetchState
      reads this
    {
      FetchState(cache, requests)
    }

    method GetCachedContent(url: string, now: int) returns (r: Option<string>)
      modifies this`cache
      ensures Lookup(r, cache) == CacheLookup(old(cache), ttl, url, now)
    {
      var key := CacheKey(url);
      if key in cache {
        var entry := cache[key];
        if now - entry.timestamp < ttl {
          return Some(entry.content);
        }
        cache := cache - {key};
      }
      return None;
    }

    method CacheContent(url: string, content: string, now: int)
      modifies this`cache
      ensures cache == CacheStore(old(cache), url, content, now)
    {
      cache := cache[CacheKey(url) := CacheEntry(content, now)];
    }

    /** The checks of fetch_single_url once the proxy has answered. */
    static method ValidateReply(t: Transport) returns (content: string)
      ensures content == ThreadPoolAccept(t)
    {
      if !t.Reply? || IsHttpError(t.status) {
        return "";
      }
      if StartsWith(t.contentType, "application/json") && t.jsonCode == Some(451) {
        return "";
      }
      content := Strip(t.body);
      if |content| < MinLength {
        return "";
      }
      var invalid := ScanIndicators(Lower(content));
      if invalid {
        return "";
      }
    }

    method FetchSingleUrl(url: string, net: string -> Transport, now: int) returns (content: string)
      modifies this
      ensures Fetched(content, State()) == FetchOne(old(State()), ttl, ThreadPool, url, net, now)
    {
      if IsBlockedUrl(url) {
        return "";
      }
      var cached := GetCachedContent(url, now);
      if cached.Some? && cached.value != "" {
        return cached.value;
      }
      requests := requests + [url];
      content := ValidateReply(net(url));
      if content != "" {
        CacheContent(url, content, now);
      }
    }

    method FetchSingleAsync(url: string, net: string -> Transport, now: int) returns (content: string)
      modifies this
      ensures Fetched(content, State()) == FetchOne(old(State()), ttl, Cooperative, url, net, now)
    {
      if IsBlockedUrl(url) {
        return "";
      }
      var cached := GetCachedContent(url, now);
      if cached.Some? && cached.value != "" {
        return cached.value;
      }
      requests := requests + [url];
      var t := net(url);
      if t.Reply? && t.status == 200 {
        content := Strip(t.body);
        if |content| >= MinLength {
          CacheContent(url, content, now);
          return content;
        }
      }
      return "";
    }

    /** fetch_urls_parallel: every URL's outcome lands in the map under its own key. */
    method FetchUrlsParallel(urls: seq<string>, net: string -> Transport, now: int) returns (results: map<string, string>)
      modifies this
      ensures Batch(results, State()) == FetchAll(old(State()), ttl, ThreadPool, urls, net, now)
      ensures results.Keys == set u | u in urls
    {
      results := map[];
      var i := 0;
      while i < |urls|
        invariant 0 <= i <= |urls|
        invariant Batch(results, State()) == FetchAll(old(State()), ttl, ThreadPool, urls[..i], net, now)
      {
        assert urls[..i + 1][..i] == urls[..i];
        var content := FetchSingleUrl(urls[i], net, now);
        results := results[urls[i] := content];
        i := i + 1;
      }
      assert urls[..|urls|] == urls;
      FetchAllKeys(old(State()), ttl, ThreadPool, urls, net, now);
    }

    /** fetch_urls_async, with the gathered results folded into the map in list order. */
    method FetchUrlsAsync(urls: seq<string>, net: string -> Transport, now: int) returns (results: map<string, string>)
      modifies this
      ensures Batch(results, State()) == FetchAll(old(State()), ttl, Cooperative, urls, net, now)
      ensures results.Keys == set u | u in urls
    {
      results := map[];
      var i := 0;
      while i < |urls|
        invariant 0 <= i <= |urls|
        invariant Batch(results, State()) == FetchAll(old(State()), ttl, Cooperative, urls[..i], net, now)
      {
        assert urls[..i + 1][..i] == urls[..i];
        var content := FetchSingleAsync(urls[i], net, now);
        results := results[urls[i] := content];
        i := i + 1;
      }
      assert urls[..|urls|] == urls;
      FetchAllKeys(old(State()), ttl, Cooperative, urls, net, now);
    }
  }
}
