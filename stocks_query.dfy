/** The infinite-query options for the ticker list: the query key, the
    parameters of each page request, the next-page rule and the retry
    policy. The query library that runs them is not part of this model. */
module StocksQuery {
  import opened JsValues
  import opened JsStrings
  import opened Urls
  import opened Errors
  import opened Schemas
  import opened Transformers
  import opened Tickers
  import opened Config

  const StocksPageSize: int := 20

  /** `queryKey`: the literal "tickers" and the trimmed search. */
  datatype QueryKey = QueryKey(name: string, q: string)

  function TickersQueryKey(search: string): (k: QueryKey)
    ensures k.name == "tickers"
    ensures k.q == Trim(search)
  {
    QueryKey("tickers", Trim(search))
  }

  /** Searches that differ only in surrounding white space share a cache
      entry. */
  lemma QueryKeyIgnoresWhiteSpace(a: string, b: string)
    requires Trim(a) == Trim(b)
    ensures TickersQueryKey(a) == TickersQueryKey(b)
  {
  }

  /** `initialPageParam`: the first page is requested without a cursor. */
  const InitialPageParam: Option<string> := None

  /** `queryFn`'s parameters for one page: the trimmed search, or undefined
      when it is empty, the page cursor, and a page of 20. */
  function QueryFnParams(search: string, pageParam: Option<string>): (p: ListTickersParams)
    ensures p.cursor == pageParam
    ensures p.limit == Some(StocksPageSize as real)
    ensures p.search == NormalizeSearch(Some(search))
  {
    var normalizedSearch := Trim(search);
    TrimEmptyIffAllWhite(search);
    ListTickersParams(if normalizedSearch == "" then None else Some(normalizedSearch), pageParam, Some(StocksPageSize as real))
  }

  /** The search the query key records is the search that is sent. */
  lemma KeyMatchesRequest(search: string, pageParam: Option<string>)
    ensures QueryFnParams(search, pageParam).search.GetOr("") == TickersQueryKey(search).q
  {
  }

  /** Every page request of the list passes the limit check and asks for 20
      rows; a search of at most 50 code units passes too. */
  lemma PageRequestValid(search: string, pageParam: Option<string>)
    requires JsLength(Trim(search)) <= 50
    ensures ValidateParams(QueryFnParams(search, pageParam)).Success?
    ensures ValidateParams(QueryFnParams(search, pageParam)).value.limit == StocksPageSize
  {
    var p := QueryFnParams(search, pageParam);
    NormalizeSearchIdempotent(Some(search));
    assert NormalizeSearch(p.search) == NormalizeSearch(Some(search));
    assert AcceptedLimit(p.limit.GetOr(DefaultLimit as real)) by {
      assert (StocksPageSize as real).Floor == StocksPageSize;
    }
  }

  /** `getNextPageParam`: the last page's cursor; absent means there is no
      next page. */
  function GetNextPageParam(lastPage: ListTickersResponse): (p: Option<string>)
    ensures p == lastPage.nextCursor
  {
    lastPage.nextCursor
  }

  /** A page assembled from a body whose `next_url` is a well-formed URL
      leads to the page named by that URL's cursor; a body with no
      `next_url`, or a `null` one, ends the list. */
  lemma NextPageOfBody(data: PolygonResponse)
    requires data.status == "OK"
    ensures AssembleResponse(ResponseToJson(data)).Success?
    ensures data.nextUrl.Absent? || data.nextUrl.Null? ==>
              GetNextPageParam(AssembleResponse(ResponseToJson(data)).value).None?
    ensures forall next: Url :: WellFormed(next) && data.nextUrl == Present(ToString(next)) ==>
              GetNextPageParam(AssembleResponse(ResponseToJson(data)).value) == Get(next.query, "cursor")
  {
    ResponseRoundTrip(data);
    forall next: Url | WellFormed(next) && data.nextUrl == Present(ToString(next))
      ensures GetNextPageParam(AssembleResponse(ResponseToJson(data)).value) == Get(next.query, "cursor")
    {
      ExtractCursorOfToString(next);
    }
  }

  /** The next page is requested with the cursor the last page returned,
      whenever that cursor is a plain token. */
  lemma NextRequestCarriesCursor(search: string, lastPage: ListTickersResponse)
    requires JsLength(Trim(search)) <= 50
    requires lastPage.nextCursor.Some? && lastPage.nextCursor.value != ""
    requires !LooksLikeUrl(lastPage.nextCursor.value)
    ensures var req := ValidateParams(QueryFnParams(search, GetNextPageParam(lastPage)));
            req.Success? && Get(RequestUrl(req.value).query, "cursor") == lastPage.nextCursor
  {
    PageRequestValid(search, GetNextPageParam(lastPage));
    var req := ValidateParams(QueryFnParams(search, GetNextPageParam(lastPage)));
    RequestUrlParams(req.value);
  }

  /** The error is a rate limit when its `code` is "RATE_LIMIT" or its
      `status` is 429; only the pipeline's own errors carry either. */
  predicate IsRateLimited(error: Thrown) {
    error.Api? && (error.error.code == Some(RateLimit) || error.error.status == Some(429))
  }

  /** `retry`: never after a rate limit; otherwise while fewer than two
      failures have been seen. */
  function Retry(failureCount: nat, error: Thrown): (r: bool)
    ensures IsRateLimited(error) ==> !r
    ensures !IsRateLimited(error) ==> (r <==> failureCount < 2)
  {
    if IsRateLimited(error) then false else failureCount < 2
  }

  /** Once retrying stops it does not resume. */
  lemma RetryMonotone(f1: nat, f2: nat, error: Thrown)
    requires f1 <= f2
    ensures Retry(f2, error) ==> Retry(f1, error)
  {
  }

  /** A 429 response is never retried, whatever its body said. */
  lemma RateLimitResponseNotRetried(failureCount: nat, message: Option<string>)
    ensures !Retry(failureCount, Api(FromResponse(429, message)))
  {
  }

  /** A request is made at most three times: the first attempt and two
      retries. */
  lemma RetriesBounded(error: Thrown)
    ensures forall n: nat :: Retry(n, error) ==> n <= 1
  {
  }
}
