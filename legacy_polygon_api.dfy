/** The older, self-contained copy of the ticker pipeline. It computes the
    same search, metrics, rows and next cursor as the layered client; it
    differs in the order of the query parameters, in skipping an empty
    cursor, and in ignoring an empty `error` in a failed response's body.
    Each difference is stated next to the definition it concerns. */
module LegacyPolygonApi {
  import opened JsValues
  import opened JsStrings
  import opened Urls
  import opened Config
  import opened Errors
  import opened Schemas
  import opened Transformers
  import opened Client
  import opened Tickers

  /** `normalizeSearch`: the trimmed text when it is truthy. */
  function LegacyNormalizeSearch(search: Option<string>): (r: Option<string>)
    ensures r == NormalizeSearch(search)
  {
    if search.None? then None
    else
      var trimmed := Trim(search.value);
      if trimmed != "" then Some(trimmed) else None
  }

  /** `deriveMetrics`: the same hash loop, read through `charCodeAt`. */
  method LegacyDeriveMetrics(ticker: string) returns (m: Metrics)
    ensures m == TickerMetrics(ticker)
  {
    var codes := Utf16(ticker);
    var hash := 0;
    var index := 0;
    while index < |codes|
      invariant 0 <= index <= |codes|
      invariant 0 <= hash < 100000
      invariant hash == Hash(codes[..index])
    {
      assert codes[..index + 1][..index] == codes[..index];
      hash := (hash * 31 + codes[index]) % 100000;
      index := index + 1;
    }
    assert codes[..index] == codes;
    assert hash == Hash(codes);
    var price := 50 + hash % 950;
    var changeTenths := (hash / 13) % 200 - 100;
    m := Metrics(price, changeTenths, (price * changeTenths) as real / 1000.0);
    assert m == MetricsOfHash(hash);
  }

  /** `getNextCursor`, which accepts `null` as well as a missing URL. */
  function GetNextCursor(nextUrl: Field<string>): (r: Option<string>)
    ensures r == ExtractCursor(nextUrl.ToOption())
  {
    if !nextUrl.Present? || nextUrl.value == "" then None
    else
      match Parse(nextUrl.value)
      case None => None
      case Some(url) => Get(url.query, "cursor")
  }

  /** `mapToStocks`: one item per row, with `name ?? ticker`. */
  function MapToStocks(results: seq<PolygonTicker>): (items: seq<StockItem>)
    ensures items == TransformToStockItems(results)
  {
    seq(|results|, i requires 0 <= i < |results| =>
      var metrics := TickerMetrics(results[i].ticker);
      StockItem(results[i].ticker, if results[i].name.Present? then results[i].name.value else results[i].ticker,
                metrics.price, metrics.changeTenths, metrics.change))
  }

  // ---------------------------------------------------------------------
  // listNasdaqTickers

  /** The inline cursor sanitising: `let safeCursor = cursor`, replaced only
      when the cursor is truthy and looks like a URL. Unlike `safeCursor`,
      an empty cursor is kept as it is. */
  method LegacySafeCursor(cursor: Option<string>) returns (safe: Option<string>)
    ensures cursor == Some("") ==> safe == Some("")
    ensures cursor != Some("") ==> safe == SafeCursor(cursor)
  {
    safe := cursor;
    if cursor.Some? && cursor.value != "" && LooksLikeUrl(cursor.value) {
      var parsed := Parse(cursor.value);
      if parsed.Some? {
        safe := Get(parsed.value.query, "cursor");
      } else {
        safe := None;
      }
    }
  }

  /** `if (value)`: an empty string counts as absent. */
  function Truthy(value: Option<string>): (r: Option<string>)
    ensures r.Some? <==> value.Some? && value.value != ""
    ensures r.Some? ==> r == value
  {
    if value.Some? && value.value != "" then value else None
  }

  /** The validated request: the same schema, applied to the inline
      sanitising's cursor. */
  function LegacyValidate(search: Option<string>, cursor: Option<string>, limit: Option<real>): Result<ParsedRequest, Thrown> {
    var input := RequestInput(Some(limit.GetOr(DefaultLimit as real)), cursor, LegacyNormalizeSearch(search));
    var parsed := ParseRequest(input);
    if parsed.Success? then Success(parsed.value) else Failure(Validation(parsed.error))
  }

  /** The parameters the older copy sets, in the order it sets them:
      `limit` before `active`, and a search or cursor only when it is a
      non-empty string. */
  function LegacyRecord(req: ParsedRequest): ParamRecord
    requires 1 <= req.limit
  {
    [ ("market", Some(DefaultMarket)),
      ("exchange", Some(DefaultExchange)),
      ("sort", Some(DefaultSort)),
      ("limit", Some(NatToString(req.limit))),
      ("active", Some(DefaultActive)),
      ("search", Truthy(req.search)),
      ("cursor", Truthy(req.cursor)) ]
  }

  lemma LegacyRecordDistinct(req: ParsedRequest)
    requires 1 <= req.limit
    ensures DistinctKeys(LegacyRecord(req))
  {
  }

  /** The query the older copy sends. */
  function LegacyQuery(req: ParsedRequest): seq<Param>
    requires 1 <= req.limit
  {
    DefinedParams(LegacyRecord(req))
  }

  lemma LegacyQueryShape(req: ParsedRequest)
    requires 1 <= req.limit
    ensures LegacyQuery(req)
            == [Param("market", "stocks"), Param("exchange", "XNAS"), Param("sort", "ticker"),
                Param("limit", NatToString(req.limit)), Param("active", "true")]
               + OptionalPair("search", Truthy(req.search)) + OptionalPair("cursor", Truthy(req.cursor))
  {
    var f := LegacyRecord(req);
    assert f[6..][1..] == [];
    assert DefinedParams(f[6..]) == OptionalPair("cursor", Truthy(req.cursor));
    assert f[5..][1..] == f[6..];
    assert DefinedParams(f[5..]) == OptionalPair("search", Truthy(req.search)) + DefinedParams(f[6..]);
    assert f[4..][1..] == f[5..];
    assert DefinedParams(f[4..]) == [Param("active", "true")] + DefinedParams(f[5..]);
    assert f[3..][1..] == f[4..];
    assert DefinedParams(f[3..]) == [Param("limit", NatToString(req.limit))] + DefinedParams(f[4..]);
    assert f[2..][1..] == f[3..];
    assert DefinedParams(f[2..]) == [Param("sort", "ticker")] + DefinedParams(f[3..]);
    assert f[1..][1..] == f[2..];
    assert DefinedParams(f[1..]) == [Param("exchange", "XNAS")] + DefinedParams(f[2..]);
    assert DefinedParams(f) == [Param("market", "stocks")] + DefinedParams(f[1..]);
  }

  /** The sequence of `searchParams.set` calls on the endpoint URL, one per
      parameter the older copy sets, in its order. */
  method LegacyBuildUrl(req: ParsedRequest) returns (url: Url)
    requires 1 <= req.limit
    ensures url == Url(BaseUrl + TickersEndpoint, LegacyQuery(req))
  {
    LegacyRecordDistinct(req);
    url := BuildUrl(TickersEndpoint, LegacyRecord(req));
  }

  /** Lookups in two queries that differ by one exchange of neighbours
      and in their cursor agree on every other name. */
  lemma SwappedQueriesAgree(first: seq<Param>, x: Param, y: Param, middle: seq<Param>,
                            c1: Option<string>, c2: Option<string>, key: string)
    requires x.key != y.key && key != "cursor"
    ensures Get(first + [x, y] + (middle + OptionalPair("cursor", c1)), key)
            == Get(first + [y, x] + (middle + OptionalPair("cursor", c2)), key)
  {
    var t1, t2 := OptionalPair("cursor", c1), OptionalPair("cursor", c2);
    var f1 := first + [x, y];
    GetSwap(first, y, x, middle + t2, key);
    GetAppend(f1, middle + t1, key);
    GetAppend(f1, middle + t2, key);
    GetAppend(middle, t1, key);
    GetAppend(middle, t2, key);
  }

  /** The cursor of such a query is the one in its tail. */
  lemma CursorOfQuery(first: seq<Param>, x: Param, y: Param, middle: seq<Param>, c: Option<string>)
    requires x.key != "cursor" && y.key != "cursor"
    requires !HasKey(first, "cursor") && !HasKey(middle, "cursor")
    ensures Get(first + [x, y] + (middle + OptionalPair("cursor", c)), "cursor") == c
  {
    var f1 := first + [x, y];
    assert f1 == (first + [x]) + [y];
    HasKeyAppend(first + [x], y, "cursor");
    HasKeyAppend(first, x, "cursor");
    GetAppend(f1, middle + OptionalPair("cursor", c), "cursor");
    GetAppend(middle, OptionalPair("cursor", c), "cursor");
  }

  /** The two copies send the same pairs, in a different order, except that
      an empty cursor is sent by the layered client and omitted here. */
  lemma LegacyQueryAgrees(req: ParsedRequest, key: string)
    requires 1 <= req.limit && req.search != Some("")
    ensures key != "cursor" || req.cursor != Some("") ==>
              Get(LegacyQuery(req), key) == Get(RequestUrl(req).query, key)
    ensures req.cursor == Some("") ==>
              Get(LegacyQuery(req), "cursor") == None && Get(RequestUrl(req).query, "cursor") == Some("")
  {
    LegacyCursors(req);
    if key != "cursor" {
      LegacyOtherKeysAgree(req, key);
    }
  }

  /** Both queries, split into the fixed pairs, the swapped pair, the
      search and the cursor. */
  lemma QueriesSplit(req: ParsedRequest)
    requires 1 <= req.limit && req.search != Some("")
    ensures var first := [Param("market", "stocks"), Param("exchange", "XNAS"), Param("sort", "ticker")];
            var active, limit := Param("active", "true"), Param("limit", NatToString(req.limit));
            && RequestUrl(req).query == first + [active, limit] + (OptionalPair("search", req.search) + OptionalPair("cursor", req.cursor))
            && LegacyQuery(req) == first + [limit, active] + (OptionalPair("search", req.search) + OptionalPair("cursor", Truthy(req.cursor)))
  {
    var first := [Param("market", "stocks"), Param("exchange", "XNAS"), Param("sort", "ticker")];
    var active, limit := Param("active", "true"), Param("limit", NatToString(req.limit));
    RequestUrlQuery(req);
    Regroup(first, active, limit, OptionalPair("search", req.search), OptionalPair("cursor", req.cursor));
    LegacyQueryShape(req);
    assert Truthy(req.search) == req.search;
    Regroup(first, limit, active, OptionalPair("search", req.search), OptionalPair("cursor", Truthy(req.cursor)));
  }

  lemma Regroup(first: seq<Param>, x: Param, y: Param, b: seq<Param>, c: seq<Param>)
    requires |first| == 3
    ensures [first[0], first[1], first[2], x, y] + b + c == first + [x, y] + (b + c)
  {
    assert [first[0], first[1], first[2], x, y] == first + [x, y];
  }

  lemma LegacyOtherKeysAgree(req: ParsedRequest, key: string)
    requires 1 <= req.limit && req.search != Some("") && key != "cursor"
    ensures Get(LegacyQuery(req), key) == Get(RequestUrl(req).query, key)
  {
    QueriesSplit(req);
    var first := [Param("market", "stocks"), Param("exchange", "XNAS"), Param("sort", "ticker")];
    var active, limit := Param("active", "true"), Param("limit", NatToString(req.limit));
    SwappedQueriesAgree(first, limit, active, OptionalPair("search", req.search), Truthy(req.cursor), req.cursor, key);
  }

  lemma LegacyCursors(req: ParsedRequest)
    requires 1 <= req.limit && req.search != Some("")
    ensures Get(LegacyQuery(req), "cursor") == Truthy(req.cursor)
    ensures Get(RequestUrl(req).query, "cursor") == req.cursor
  {
    QueriesSplit(req);
    var first := [Param("market", "stocks"), Param("exchange", "XNAS"), Param("sort", "ticker")];
    var active, limit := Param("active", "true"), Param("limit", NatToString(req.limit));
    var searchPair := OptionalPair("search", req.search);
    assert !HasKey(first, "cursor");
    assert !HasKey(searchPair, "cursor");
    CursorOfQuery(first, limit, active, searchPair, Truthy(req.cursor));
    CursorOfQuery(first, active, limit, searchPair, req.cursor);
  }

  /** The order differs: the fourth pair is `limit` here and `active` in
      the layered client. */
  lemma LegacyOrderDiffers(req: ParsedRequest)
    requires 1 <= req.limit
    ensures |RequestUrl(req).query| >= 5
    ensures |LegacyQuery(req)| >= 5
    ensures LegacyQuery(req)[3].key == "limit" && RequestUrl(req).query[3].key == "active"
  {
    RequestUrlQuery(req);
    LegacyQueryShape(req);
  }

  /** A failed response's body message is used only when it is truthy. */
  function LegacyErrorField(body: Body): (m: Option<string>)
    ensures m == Truthy(ErrorField(body))
  {
    if body.Parsed? && body.json.JObject? && "error" in body.json.fields
       && body.json.fields["error"].JString? && body.json.fields["error"].s != "" then
      Some(body.json.fields["error"].s)
    else None
  }

  /** The older copy's handling of what `fetch` returned: the fixed errors
      for 429, 401 and 403, and for another failed status the body's
      message when it is non-empty, else the default. */
  function LegacyRoute(outcome: FetchOutcome): (r: Result<Json, Thrown>)
    ensures r.Success? <==> outcome.Response? && IsOk(outcome.status) && outcome.body.Parsed?
    ensures r.Success? ==> r.value == outcome.body.json
    ensures outcome.Response? && !IsOk(outcome.status) ==>
              r == Failure(Api(FromResponse(outcome.status, LegacyErrorField(outcome.body))))
    ensures outcome.Rejected? ==> r == Failure(Caught(outcome.reason))
    ensures outcome.Response? && IsOk(outcome.status) && outcome.body.Unreadable? ==>
              r == Failure(Caught(outcome.body.reason))
  {
    match outcome
    case Rejected(e) => Failure(Caught(e))
    case Response(status, body) =>
      if !IsOk(status) then
        if status == 429 then Failure(Api(PolygonApiError(RateLimitMessage, Some(429), Some(RateLimit))))
        else if status == 401 then Failure(Api(PolygonApiError(UnauthorizedMessage, Some(401), Some(Unauthorized))))
        else if status == 403 then Failure(Api(PolygonApiError(ForbiddenMessage, Some(403), Some(Forbidden))))
        else Failure(Api(PolygonApiError(LegacyErrorField(body).GetOr(StatusFailedMessage(status)), Some(status), None)))
      else
        match body
        case Parsed(j) => Success(j)
        case Unreadable(e) => Failure(Caught(e))
  }

  /** The two copies route every outcome alike, except a failed status
      without a fixed message whose body carries an empty `error`: the
      layered client keeps the empty message, the older copy uses the
      default. */
  lemma LegacyRouteAgrees(outcome: FetchOutcome)
    ensures LegacyRoute(outcome) != Route(outcome) <==>
              && outcome.Response? && !IsOk(outcome.status)
              && outcome.status != 429 && outcome.status != 401 && outcome.status != 403
              && ErrorField(outcome.body) == Some("")
  {
    if outcome.Response? && !IsOk(outcome.status) && outcome.status != 429 && outcome.status != 401
       && outcome.status != 403 && ErrorField(outcome.body) == Some("") {
      assert StatusFailedMessage(outcome.status) != "";
    }
  }

  /** The concrete case: a 500 whose body is `{"error": ""}`. */
  lemma EmptyErrorExample()
    ensures var o := Response(500, Parsed(JObject(map["error" := JString("")])));
            && Route(o) == Failure(Api(PolygonApiError("", Some(500), None)))
            && LegacyRoute(o) == Failure(Api(PolygonApiError(StatusFailedMessage(500), Some(500), None)))
  {
  }

  /** `makeRequest` of the older copy. */
  method LegacyMakeRequest(url: Url, apiKey: Option<string>, fetch: string -> FetchOutcome)
    returns (sent: Option<string>, r: Result<Json, Thrown>)
    ensures apiKey.None? || apiKey.value == "" ==> sent == None && r == Failure(Api(MissingApiKey()))
    ensures apiKey.Some? && apiKey.value != "" ==>
              && sent == Some(ToString(Set(url, "apikey", apiKey.value)))
              && r == LegacyRoute(fetch(sent.value))
  {
    if apiKey.None? || apiKey.value == "" {
      return None, Failure(Api(PolygonApiError(MissingApiKeyMessage, None, None)));
    }
    var requestUrl := Set(url, "apikey", apiKey.value);
    sent := Some(ToString(requestUrl));
    var outcome := fetch(sent.value);
    if outcome.Rejected? {
      r := Failure(Caught(outcome.reason));
    } else if !IsOk(outcome.status) {
      var status := outcome.status;
      if status == 429 {
        r := Failure(Api(PolygonApiError(RateLimitMessage, Some(429), Some(RateLimit))));
      } else if status == 401 {
        r := Failure(Api(PolygonApiError(UnauthorizedMessage, Some(401), Some(Unauthorized))));
      } else if status == 403 {
        r := Failure(Api(PolygonApiError(ForbiddenMessage, Some(403), Some(Forbidden))));
      } else {
        var errorMessage := StatusFailedMessage(status);
        var field := ErrorField(outcome.body);
        if field.Some? && field.value != "" {
          errorMessage := field.value;
        }
        r := Failure(Api(PolygonApiError(errorMessage, Some(status), None)));
      }
    } else if outcome.body.Unreadable? {
      r := Failure(Caught(outcome.body.reason));
    } else {
      r := Success(outcome.body.json);
    }
  }

  /** The response handling of the older copy, through `mapToStocks` and
      `getNextCursor`; it builds the same page. */
  function LegacyAssembleResponse(raw: Json): (r: Result<ListTickersResponse, Thrown>)
    ensures r == AssembleResponse(raw)
  {
    match ParseResponse(raw)
    case Failure(fields) => Failure(Api(PolygonApiError("Unexpected response from Polygon: " + Diagnostic(fields), None, None)))
    case Success(data) =>
      if data.status != "OK" then
        Failure(Api(PolygonApiError(data.error.GetOr("Polygon request failed with status: " + data.status), None, None)))
      else
        Success(ListTickersResponse(MapToStocks(data.results), data.nextUrl.ToOption(),
                                    GetNextCursor(data.nextUrl), data.count, data.requestId))
  }

  function LegacyFinish(routed: Result<Json, Thrown>): Result<ListTickersResponse, Thrown> {
    match routed
    case Failure(e) => Failure(e)
    case Success(raw) => LegacyAssembleResponse(raw)
  }

  /** `listNasdaqTickers` of the older copy. */
  method LegacyListNasdaqTickers(params: ListTickersParams, apiKey: Option<string>, fetch: string -> FetchOutcome)
    returns (sent: Option<string>, r: Result<ListTickersResponse, Thrown>)
    ensures var v := LegacyValidate(params.search, if params.cursor == Some("") then Some("") else SafeCursor(params.cursor), params.limit);
            && (v.Failure? ==> sent == None && r == Failure(v.error))
            && (v.Success? && (apiKey.None? || apiKey.value == "") ==> sent == None && r == Failure(Api(MissingApiKey())))
            && (v.Success? && apiKey.Some? && apiKey.value != "" ==>
                  && sent == Some(ToString(Set(Url(BaseUrl + TickersEndpoint, LegacyQuery(v.value)), "apikey", apiKey.value)))
                  && r == LegacyFinish(LegacyRoute(fetch(sent.value))))
  {
    var safeCursor := LegacySafeCursor(params.cursor);
    var validated := LegacyValidate(params.search, safeCursor, params.limit);
    if validated.Failure? {
      return None, Failure(validated.error);
    }
    var url := LegacyBuildUrl(validated.value);
    var raw;
    sent, raw := LegacyMakeRequest(url, apiKey, fetch);
    if raw.Failure? {
      return sent, Failure(raw.error);
    }
    r := LegacyAssembleResponse(raw.value);
  }

  /** Both copies accept and reject the same parameters. */
  lemma LegacyValidateAgrees(params: ListTickersParams)
    ensures var legacy := LegacyValidate(params.search, if params.cursor == Some("") then Some("") else SafeCursor(params.cursor), params.limit);
            && (legacy.Success? <==> ValidateParams(params).Success?)
            && (legacy.Success? ==> legacy.value.limit == ValidateParams(params).value.limit
                                    && legacy.value.search == ValidateParams(params).value.search
                                    && Truthy(legacy.value.cursor) == Truthy(ValidateParams(params).value.cursor))
  {
    var limit := Some(params.limit.GetOr(DefaultLimit as real));
    var search := NormalizeSearch(params.search);
    var c := if params.cursor == Some("") then Some("") else SafeCursor(params.cursor);
    ParseRequestIgnoresCursor(limit, c, SafeCursor(params.cursor), search);
  }

  lemma ParseRequestIgnoresCursor(limit: Option<real>, c1: Option<string>, c2: Option<string>, search: Option<string>)
    ensures var r1, r2 := ParseRequest(RequestInput(limit, c1, search)), ParseRequest(RequestInput(limit, c2, search));
            && (r1.Success? <==> r2.Success?)
            && (r1.Success? ==> r1.value == r2.value.(cursor := c1))
  {
  }
}
