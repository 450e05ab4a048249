/** `listNasdaqTickers`: validate and normalise the parameters, build the
    tickers URL, send the authenticated request, validate the body and
    shape the page the list view consumes. */
module Tickers {
  import opened JsValues
  import opened JsStrings
  import opened Urls
  import opened Config
  import opened Errors
  import opened Schemas
  import opened Transformers
  import opened Client

  /** The caller's parameters; the limit is a JavaScript number. */
  datatype ListTickersParams = ListTickersParams(search: Option<string>, cursor: Option<string>, limit: Option<real>)

  /** One page of the list. */
  datatype ListTickersResponse = ListTickersResponse(
    stocks: seq<StockItem>,
    nextUrl: Option<string>,
    nextCursor: Option<string>,
    count: Option<int>,
    requestId: Option<string>)

  /** A normalised search is already trimmed and not empty, so the schema
      only checks its length. */
  lemma NormalizedSearchAccepted(search: Option<string>)
    ensures NormalizeSearch(search).Some? ==>
              (AcceptedSearch(NormalizeSearch(search).value) <==> JsLength(NormalizeSearch(search).value) <= 50)
  {
    if search.Some? {
      TrimIdempotent(search.value);
    }
  }

  /** The request schema applied to the normalised parameters: the limit
      defaults to 20, the cursor goes through `safeCursor` and the search
      through `normalizeSearch` first. A rejection is the validation error. */
  function ValidateParams(params: ListTickersParams): (r: Result<ParsedRequest, Thrown>)
    ensures r.Success? <==> AcceptedLimit(params.limit.GetOr(DefaultLimit as real))
                            && (NormalizeSearch(params.search).None?
                                || JsLength(NormalizeSearch(params.search).value) <= 50)
    ensures r.Success? ==> r.value.limit as real == params.limit.GetOr(DefaultLimit as real)
                           && 1 <= r.value.limit <= MaxLimit
    ensures r.Success? ==> r.value.cursor == SafeCursor(params.cursor)
    ensures r.Success? ==> r.value.search == NormalizeSearch(params.search)
    ensures r.Failure? ==> r.error.Validation?
                           && ("limit" in r.error.fields <==> !AcceptedLimit(params.limit.GetOr(DefaultLimit as real)))
  {
    var search := NormalizeSearch(params.search);
    TrimIdempotent(params.search.GetOr(""));
    NormalizedSearchAccepted(params.search);
    var input := RequestInput(Some(params.limit.GetOr(DefaultLimit as real)), SafeCursor(params.cursor), search);
    var parsed := ParseRequest(input);
    if parsed.Success? then Success(parsed.value) else Failure(Validation(parsed.error))
  }

  /** The filters every request carries, and the limit. */
  function FixedQuery(limit: nat): ParamRecord {
    [ ("market", Some(DefaultMarket)),
      ("exchange", Some(DefaultExchange)),
      ("sort", Some(DefaultSort)),
      ("active", Some(DefaultActive)),
      ("limit", Some(NatToString(limit))) ]
  }

  /** The parameter record handed to `buildUrl`, in its written order. */
  function TickersQuery(req: ParsedRequest): ParamRecord
    requires 1 <= req.limit
  {
    FixedQuery(req.limit) + [("search", req.search), ("cursor", req.cursor)]
  }

  lemma TickersQueryDistinct(req: ParsedRequest)
    requires 1 <= req.limit
    ensures DistinctKeys(TickersQuery(req))
  {
  }

  /** The URL `buildUrl` produces for a validated request. */
  function RequestUrl(req: ParsedRequest): (u: Url)
    requires 1 <= req.limit
    ensures u.base == BaseUrl + TickersEndpoint
  {
    Url(BaseUrl + TickersEndpoint, DefinedParams(TickersQuery(req)))
  }

  function OptionalPair(key: string, value: Option<string>): seq<Param> {
    if value.Some? then [Param(key, value.value)] else []
  }

  lemma FixedQueryDefined(limit: nat)
    ensures DefinedParams(FixedQuery(limit))
            == [Param("market", "stocks"), Param("exchange", "XNAS"), Param("sort", "ticker"),
                Param("active", "true"), Param("limit", NatToString(limit))]
  {
    var f := FixedQuery(limit);
    assert f[4..][1..] == [];
    assert DefinedParams(f[4..]) == [Param("limit", NatToString(limit))];
    assert f[3..][1..] == f[4..];
    assert DefinedParams(f[3..]) == [Param("active", "true")] + DefinedParams(f[4..]);
    assert f[2..][1..] == f[3..];
    assert DefinedParams(f[2..]) == [Param("sort", "ticker")] + DefinedParams(f[3..]);
    assert f[1..][1..] == f[2..];
    assert DefinedParams(f[1..]) == [Param("exchange", "XNAS")] + DefinedParams(f[2..]);
    assert DefinedParams(f) == [Param("market", "stocks")] + DefinedParams(f[1..]);
  }

  /** The request carries the fixed market, exchange, sort and activity
      filters and the limit in decimal, in that order, followed by the
      search and then the cursor, each exactly when it is defined. */
  lemma RequestUrlQuery(req: ParsedRequest)
    requires 1 <= req.limit
    ensures RequestUrl(req).query
            == [Param("market", "stocks"), Param("exchange", "XNAS"), Param("sort", "ticker"),
                Param("active", "true"), Param("limit", NatToString(req.limit))]
               + OptionalPair("search", req.search) + OptionalPair("cursor", req.cursor)
  {
    FixedQueryDefined(req.limit);
    DefinedParamsConcat(FixedQuery(req.limit), [("search", req.search), ("cursor", req.cursor)]);
    DefinedParamsConcat([("search", req.search)], [("cursor", req.cursor)]);
    assert [("search", req.search), ("cursor", req.cursor)] == [("search", req.search)] + [("cursor", req.cursor)];
  }

  /** Reading the request's parameters back gives the search, the cursor
      and the limit that were validated. */
  lemma RequestUrlParams(req: ParsedRequest)
    requires 1 <= req.limit
    ensures var q := RequestUrl(req).query;
            && Get(q, "market") == Some(DefaultMarket)
            && Get(q, "search") == req.search
            && Get(q, "cursor") == req.cursor
            && Get(q, "limit").Some? && DecimalValue(Get(q, "limit").value) == req.limit
  {
    RequestUrlFixedParams(req);
    RequestUrlOptionalParams(req);
  }

  /** The market and the limit come from the fixed part of the query. */
  lemma RequestUrlFixedParams(req: ParsedRequest)
    requires 1 <= req.limit
    ensures Get(RequestUrl(req).query, "market") == Some(DefaultMarket)
    ensures Get(RequestUrl(req).query, "limit") == Some(NatToString(req.limit))
  {
    RequestUrlQuery(req);
    var first := [Param("market", "stocks"), Param("exchange", "XNAS"), Param("sort", "ticker"), Param("active", "true")];
    var fixed := first + [Param("limit", NatToString(req.limit))];
    var opt := OptionalPair("search", req.search) + OptionalPair("cursor", req.cursor);
    assert RequestUrl(req).query == fixed + opt;
    assert !HasKey(first, "limit");
    GetAppend(fixed, opt, "market");
    GetAppend(first, [Param("limit", NatToString(req.limit))], "market");
    GetAppend(fixed, opt, "limit");
    GetAppend(first, [Param("limit", NatToString(req.limit))], "limit");
  }

  /** The search and the cursor come from the optional tail of the query. */
  lemma RequestUrlOptionalParams(req: ParsedRequest)
    requires 1 <= req.limit
    ensures Get(RequestUrl(req).query, "search") == req.search
    ensures Get(RequestUrl(req).query, "cursor") == req.cursor
  {
    RequestUrlQuery(req);
    var fixed := [Param("market", "stocks"), Param("exchange", "XNAS"), Param("sort", "ticker"),
                  Param("active", "true"), Param("limit", NatToString(req.limit))];
    var search, cursor := OptionalPair("search", req.search), OptionalPair("cursor", req.cursor);
    assert RequestUrl(req).query == fixed + (search + cursor);
    assert !HasKey(fixed, "search") && !HasKey(fixed, "cursor");
    assert !HasKey(search, "cursor");
    GetAppend(fixed, search + cursor, "search");
    GetAppend(search, cursor, "search");
    GetAppend(fixed, search + cursor, "cursor");
    GetAppend(search, cursor, "cursor");
  }

  /** A stand-in for the validator's diagnostic: the rejected fields,
      separated by commas. */
  function Diagnostic(fields: seq<string>): string {
    if fields == [] then ""
    else if |fields| == 1 then fields[0]
    else fields[0] + ", " + Diagnostic(fields[1..])
  }

  /** The message thrown when the upstream status is not "OK". */
  function StatusMessage(data: PolygonResponse): (m: string)
    ensures data.error.Some? ==> m == data.error.value
    ensures data.error.None? ==> m == "Polygon request failed with status: " + data.status
  {
    data.error.GetOr("Polygon request failed with status: " + data.status)
  }

  /** From the decoded body to the page: a body of the wrong shape is an
      invalid response, a status other than "OK" is an error carrying the
      body's message (or a default naming the status), and otherwise the
      rows are transformed and the next cursor is read from `next_url`. */
  function AssembleResponse(raw: Json): (r: Result<ListTickersResponse, Thrown>)
    ensures !ResponseShape(raw) ==>
              r == Failure(Api(InvalidResponse(Diagnostic(ParseResponse(raw).error))))
    ensures ResponseShape(raw) && ParseResponse(raw).value.status != "OK" ==>
              r == Failure(Api(PolygonApiError(StatusMessage(ParseResponse(raw).value), None, None)))
    ensures r.Success? <==> ResponseShape(raw) && ParseResponse(raw).value.status == "OK"
    ensures r.Success? ==>
              var data := ParseResponse(raw).value;
              && r.value.stocks == TransformToStockItems(data.results)
              && r.value.nextUrl == data.nextUrl.ToOption()
              && r.value.nextCursor == ExtractCursor(data.nextUrl.ToOption())
              && r.value.count == data.count
              && r.value.requestId == data.requestId
  {
    match ParseResponse(raw)
    case Failure(fields) => Failure(Api(InvalidResponse(Diagnostic(fields))))
    case Success(data) =>
      if data.status != "OK" then Failure(Api(PolygonApiError(StatusMessage(data), None, None)))
      else
        Success(ListTickersResponse(TransformToStockItems(data.results), data.nextUrl.ToOption(),
                                    ExtractCursor(data.nextUrl.ToOption()), data.count, data.requestId))
  }

  /** A body of status "OK" encoded from `data` gives the page built from
      `data`, and the next cursor is the one in its `next_url`. */
  lemma AssembleOfBody(data: PolygonResponse, next: Url)
    requires data.status == "OK" && data.nextUrl == Present(ToString(next)) && WellFormed(next)
    ensures AssembleResponse(ResponseToJson(data))
            == Success(ListTickersResponse(TransformToStockItems(data.results), Some(ToString(next)),
                                           Get(next.query, "cursor"), data.count, data.requestId))
  {
    ResponseRoundTrip(data);
    ExtractCursorOfToString(next);
  }

  /** A body with any status other than "OK" is an error, with the body's
      own message when it has one. */
  lemma AssembleOfFailedStatus(data: PolygonResponse)
    requires data.status != "OK"
    ensures AssembleResponse(ResponseToJson(data)).Failure?
    ensures var e := AssembleResponse(ResponseToJson(data)).error;
            e.Api? && e.error.status == None && e.error.code == None
            && (data.error.Some? ==> e.error.message == data.error.value)
            && (data.error.None? ==> e.error.message == "Polygon request failed with status: " + data.status)
  {
    ResponseRoundTrip(data);
  }

  /** What follows the response once the request has been sent. */
  function Finish(routed: Result<Json, Thrown>): Result<ListTickersResponse, Thrown> {
    match routed
    case Failure(e) => Failure(e)
    case Success(raw) => AssembleResponse(raw)
  }

  /** `listNasdaqTickers`. `sent` is the URL string handed to `fetch`, or
      `None` when the call fails before any request is made. */
  method ListNasdaqTickers(params: ListTickersParams, apiKey: Option<string>, fetch: string -> FetchOutcome)
    returns (sent: Option<string>, r: Result<ListTickersResponse, Thrown>)
    ensures ValidateParams(params).Failure? ==> sent == None && r == Failure(ValidateParams(params).error)
    ensures ValidateParams(params).Success? && (apiKey.None? || apiKey.value == "") ==>
              sent == None && r == Failure(Api(MissingApiKey()))
    ensures ValidateParams(params).Success? && apiKey.Some? && apiKey.value != "" ==>
              && sent == Some(ToString(Set(RequestUrl(ValidateParams(params).value), "apikey", apiKey.value)))
              && r == Finish(Route(fetch(sent.value)))
  {
    var validated := ValidateParams(params);
    if validated.Failure? {
      return None, Failure(validated.error);
    }
    var req := validated.value;
    TickersQueryDistinct(req);
    var url := BuildUrl(TickersEndpoint, TickersQuery(req));
    var raw;
    sent, raw := MakeRequest(url, apiKey, fetch);
    if raw.Failure? {
      return sent, Failure(raw.error);
    }
    r := AssembleResponse(raw.value);
  }

  /** Handing a page's `next_url` back as the cursor (rather than its
      `nextCursor`) still requests the right page: the cursor sent is the
      token inside the URL. */
  lemma NextUrlAsCursor(params: ListTickersParams, next: Url)
    requires WellFormed(next) && |next.base| >= 8 && next.base[..8] == "https://"
    requires params.cursor == Some(ToString(next))
    requires ValidateParams(params).Success?
    ensures Get(RequestUrl(ValidateParams(params).value).query, "cursor") == Get(next.query, "cursor")
  {
    SafeCursorOfNextUrl(next);
    RequestUrlParams(ValidateParams(params).value);
  }
}
