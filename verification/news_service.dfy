/**
 * The news service: `POST /api/news/fetch`, `GET /api/news/sources` and
 * `POST /api/news/clear-cache`.
 *
 * The external fetcher (`fetch_news_parallel`) is abstracted as what it did
 * for this request: it was not importable, it returned a list of raw items,
 * or it raised.  Raw items are dicts of strings; the service keeps five of
 * their fields and stamps the request's language on each.
 */
module NewsService {
  import opened Common
  import CacheManager

  /** `NewsRequest`. */
  datatype NewsRequest = NewsRequest(language: string, limit: int, categories: Option<seq<string>>, skipCache: bool)

  /** The request with every field defaulted. */
  function DefaultNewsRequest(): (r: NewsRequest)
    ensures r.language == "pt-BR" && r.limit == 8 && r.categories.None? && !r.skipCache
  {
    NewsRequest("pt-BR", 8, None, false)
  }

  /** A news item as the fetcher returned it. */
  type RawItem = map<string, string>

  /** A news item as the service returns and caches it. */
  datatype NewsDict = NewsDict(title: string, summary: string, source: string, url: string, publishedAt: string, language: string)

  /** What the fetcher did for this request. */
  datatype Fetcher =
    | Unavailable                 // the import failed at startup
    | Fetched(items: seq<RawItem>)
    | FetchFailed(message: string)

  /** `NewsResponse`. */
  datatype NewsResponse = NewsResponse(news: seq<NewsDict>, totalCount: int, language: string, sourceCount: int, cached: bool)

  /** The news cache holds the lists this service wrote. */
  type NewsCache = CacheManager.Cache<seq<NewsDict>>

  // ---------------------------------------------------------------------
  // Cache key
  // ---------------------------------------------------------------------

  /** `f"news:{language}:{limit}"`. */
  function CacheKey(language: string, limit: int): string
  {
    "news:" + language + ":" + IntToString(limit)
  }

  /** `n.get(key, "")`. */
  function Get(n: RawItem, key: string): string
  {
    if key in n then n[key] else ""
  }

  /** One raw item converted to the service's dict, in the request's language. */
  function Normalise(n: RawItem, language: string): (d: NewsDict)
    ensures d.language == language
    ensures d.title == Get(n, "title") && d.source == Get(n, "source")
    ensures d.summary == Get(n, "summary") && d.url == Get(n, "url") && d.publishedAt == Get(n, "published_at")
  {
    NewsDict(Get(n, "title"), Get(n, "summary"), Get(n, "source"), Get(n, "url"), Get(n, "published_at"), language)
  }

  /** The list comprehension: every item, in order. */
  function NormaliseAll(items: seq<RawItem>, language: string): (r: seq<NewsDict>)
    ensures |r| == |items|
    ensures forall i | 0 <= i < |items| :: r[i] == Normalise(items[i], language)
  {
    if |items| == 0 then [] else [Normalise(items[0], language)] + NormaliseAll(items[1..], language)
  }

  /** The distinct sources of a list. */
  function Sources(news: seq<NewsDict>): set<string>
  {
    set i | 0 <= i < |news| :: news[i].source
  }

  /** What a fetch left behind: the response or the HTTP 500 detail, and the cache. */
  datatype Fetch = Fetch(response: Result<NewsResponse, string>, cache: NewsCache)

  /**
   * `fetch_news`.  `readFault` and `writeFault` say whether the cache's
   * backend raised on the read and on the write.
   */
  function FetchNews(request: NewsRequest, cache: NewsCache, fetcher: Fetcher, readFault: bool, writeFault: bool): (f: Fetch)
    ensures f.response.Ok? ==> f.response.value.language == request.language
    ensures f.response.Ok? ==> f.response.value.totalCount == |f.response.value.news|
    ensures f.response.Err? <==> fetcher.FetchFailed? && !CacheHit(request, cache, readFault)
  {
    var key := CacheKey(request.language, request.limit);
    var cached := if request.skipCache then None else CacheManager.Get(cache, key, readFault);
    if cached.Some? && |cached.value| > 0 then
      Fetch(Ok(NewsResponse(cached.value, |cached.value|, request.language, 0, true)), cache)
    else
      match fetcher
      case FetchFailed(message) => Fetch(Err(message), cache)
      case Unavailable => Fresh(request, cache, [], writeFault)
      case Fetched(items) => Fresh(request, cache, items, writeFault)
  }

  /** Normalise the fetched items, cache them and answer them uncached. */
  function Fresh(request: NewsRequest, cache: NewsCache, raw: seq<RawItem>, writeFault: bool): (f: Fetch)
    ensures f.response.Ok? && !f.response.value.cached
  {
    var news := NormaliseAll(raw, request.language);
    var written := CacheManager.Set(cache, CacheKey(request.language, request.limit), news, writeFault);
    Fetch(Ok(NewsResponse(news, |news|, request.language, |Sources(news)|, false)), written.cache)
  }

  /** The cache answers the request: it was read and held a non-empty list. */
  predicate CacheHit(request: NewsRequest, cache: NewsCache, readFault: bool)
  {
    var key := CacheKey(request.language, request.limit);
    && !request.skipCache && cache.enabled && !readFault
    && key in cache.entries && |cache.entries[key]| > 0
  }

  // ---------------------------------------------------------------------
  // Properties
  // ---------------------------------------------------------------------

  /** Distinct digit strings and languages give distinct keys. */
  lemma {:induction false} CacheKeyInjective(l1: string, n1: int, l2: string, n2: int)
    requires CacheKey(l1, n1) == CacheKey(l2, n2)
    ensures l1 == l2 && n1 == n2
  {
    var d1, d2 := IntToString(n1), IntToString(n2);
    var a1, a2 := "news:" + l1, "news:" + l2;
    assert a1 + ":" + d1 == a2 + ":" + d2;
    LastSeparator(a1, d1, a2, d2, ':');
    assert l1 == a1[5..] && l2 == a2[5..];
    IntToStringInjective(n1, n2);
  }

  /** Splitting at the last separator is unique when the tails avoid it. */
  lemma LastSeparator(a1: string, d1: string, a2: string, d2: string, sep: char)
    requires a1 + [sep] + d1 == a2 + [sep] + d2
    requires forall k | 0 <= k < |d1| :: d1[k] != sep
    requires forall k | 0 <= k < |d2| :: d2[k] != sep
    ensures a1 == a2 && d1 == d2
  {
    var s := a1 + [sep] + d1;
    AfterLastSeparator(a1, d1, sep);
    AfterLastSeparator(a2, d2, sep);
    assert a1 == s[..|a1|] == a2;
  }

  /** The text after the last `sep` (all of `s` when there is none). */
  function AfterLast(s: string, sep: char): (r: string)
    ensures |r| <= |s|
  {
    if |s| == 0 || s[|s| - 1] == sep then []
    else AfterLast(s[..|s| - 1], sep) + [s[|s| - 1]]
  }

  lemma {:induction false} AfterLastSeparator(a: string, d: string, sep: char)
    requires forall k | 0 <= k < |d| :: d[k] != sep
    ensures AfterLast(a + [sep] + d, sep) == d
    decreases |d|
  {
    var s := a + [sep] + d;
    if |d| > 0 {
      var d' := d[..|d| - 1];
      assert s[..|s| - 1] == a + [sep] + d';
      AfterLastSeparator(a, d', sep);
      assert d == d' + [d[|d| - 1]];
    } else {
      assert s[|s| - 1] == sep;
    }
  }

  /** Fresh items keep their order and count and carry the request's language. */
  lemma FreshFetchShape(request: NewsRequest, cache: NewsCache, items: seq<RawItem>, readFault: bool, writeFault: bool)
    requires !CacheHit(request, cache, readFault)
    ensures var f := FetchNews(request, cache, Fetched(items), readFault, writeFault);
      && f.response.Ok?
      && !f.response.value.cached
      && |f.response.value.news| == |items|
      && (forall i | 0 <= i < |items| ::
            f.response.value.news[i].title == Get(items[i], "title")
            && f.response.value.news[i].source == Get(items[i], "source")
            && f.response.value.news[i].language == request.language)
      && f.response.value.sourceCount == |Sources(f.response.value.news)|
  {
  }

  /** There are never more distinct sources than items. */
  lemma {:induction false} SourceCountBound(news: seq<NewsDict>)
    ensures |Sources(news)| <= |news|
  {
    if |news| > 0 {
      SourceCountBound(news[1..]);
      assert Sources(news) == {news[0].source} + Sources(news[1..]) by {
        forall s | s in Sources(news)
          ensures s in {news[0].source} + Sources(news[1..])
        {
          var i :| 0 <= i < |news| && news[i].source == s;
          if i > 0 {
            assert news[1..][i - 1].source == s;
          }
        }
        forall s | s in Sources(news[1..])
          ensures s in Sources(news)
        {
          var i :| 0 <= i < |news[1..]| && news[1..][i].source == s;
          assert news[i + 1].source == s;
        }
      }
    } else {
      assert Sources(news) == {};
    }
  }

  /** Without a fetcher the service answers an empty, uncached list. */
  lemma NoFetcherEmpty(request: NewsRequest, cache: NewsCache, readFault: bool, writeFault: bool)
    requires !CacheHit(request, cache, readFault)
    ensures FetchNews(request, cache, Unavailable, readFault, writeFault).response
         == Ok(NewsResponse([], 0, request.language, 0, false))
  {
    assert Sources([]) == {};
  }

  /**
   * A cache hit answers the cached list with `cached` set and a source count
   * of 0, without consulting the fetcher or changing the cache.
   */
  lemma CacheHitServesCached(request: NewsRequest, cache: NewsCache, fetcher: Fetcher, readFault: bool, writeFault: bool)
    requires CacheHit(request, cache, readFault)
    ensures var cached := cache.entries[CacheKey(request.language, request.limit)];
      FetchNews(request, cache, fetcher, readFault, writeFault)
        == Fetch(Ok(NewsResponse(cached, |cached|, request.language, 0, true)), cache)
  {
  }

  /**
   * `skip_cache` never serves the cache, but a fresh fetch still refreshes
   * it; an empty cached list counts as a miss.
   */
  lemma SkipCacheRefreshes(request: NewsRequest, cache: NewsCache, items: seq<RawItem>, readFault: bool)
    requires request.skipCache && cache.enabled
    ensures var f := FetchNews(request, cache, Fetched(items), readFault, false);
      && f.response.Ok? && !f.response.value.cached
      && f.cache.entries == cache.entries[CacheKey(request.language, request.limit) := f.response.value.news]
  {
  }

  /** A fetch followed by the same request (read succeeding) serves the fetched list from cache. */
  lemma FetchThenCached(request: NewsRequest, cache: NewsCache, items: seq<RawItem>, readFault: bool, later: Fetcher)
    requires cache.enabled && |items| > 0 && !request.skipCache
    requires !CacheHit(request, cache, readFault)
    ensures var first := FetchNews(request, cache, Fetched(items), readFault, false);
      var second := FetchNews(request, first.cache, later, false, false);
      && second.response.Ok?
      && second.response.value.cached
      && second.response.value.news == first.response.value.news
  {
  }

  /** A raising fetcher on a miss is reported as HTTP 500 with its message; the cache is unchanged. */
  lemma FetchFailureReported(request: NewsRequest, cache: NewsCache, message: string, readFault: bool, writeFault: bool)
    requires !CacheHit(request, cache, readFault)
    ensures FetchNews(request, cache, FetchFailed(message), readFault, writeFault) == Fetch(Err(message), cache)
  {
  }

  // ---------------------------------------------------------------------
  // Sources and cache clearing
  // ---------------------------------------------------------------------

  datatype Source = Source(name: string, language: string)

  /** `get_sources`: the fixed catalogue and its size. */
  function SourceCatalogue(): (r: (seq<Source>, int))
    ensures r.1 == |r.0| == 7
    ensures forall i | 0 <= i < |r.0| :: r.0[i].language == (if i < 2 then "pt-BR" else "en-US")
  {
    var sources := [
      Source("DioLinux", "pt-BR"), Source("Infowester", "pt-BR"),
      Source("ArsTechnica", "en-US"), Source("The Verge", "en-US"),
      Source("Hacker News", "en-US"), Source("TechCrunch", "en-US"),
      Source("Dev.to", "en-US")];
    (sources, |sources|)
  }

  /** The pattern `clear_cache` scans for. */
  const NewsPattern: string := "news:*"

  /** Every key the fetch endpoint writes matches the clearing pattern. */
  lemma FetchKeysAreCleared(language: string, limit: int)
    ensures CacheManager.Glob(NewsPattern, CacheKey(language, limit))
  {
    var key := CacheKey(language, limit);
    assert NewsPattern == "news:" + "*";
    CacheManager.PrefixGlob("news:", key);
    assert key[..5] == "news:";
  }

  /** `clear_cache`: clears the `news:*` keys the scan returns and reports the count. */
  method ClearCache(cache: NewsCache, steps: seq<CacheManager.ScanStep>) returns (cleared: int, after: NewsCache)
    requires CacheManager.Terminates(steps)
    ensures cache.enabled ==> after.entries == cache.entries - CacheManager.ScannedKeys(steps)
    ensures !cache.enabled ==> cleared == 0 && after == cache
    ensures cache.enabled ==> cleared == (if CacheManager.RunScan(cache.entries, steps).faulted then 0
                                          else CacheManager.RunScan(cache.entries, steps).count)
    ensures cleared >= 0
  {
    var r := CacheManager.ClearPattern(cache, NewsPattern, steps);
    cleared := r.count;
    after := r.cache;
  }
}
