# Ticker pipeline of the NASDAQ explorer, modelled in Dafny

The web app lists NASDAQ tickers from the Polygon reference API, page by
page. This project models that pipeline and proves properties about it.

- Parameter normalisation: the search is trimmed and white space alone
  becomes absent. A cursor that is really a next-page URL is replaced by
  that URL's `cursor` parameter.
- Validation: the request schema and the response schema are explicit
  structural checks.
- The URL: `buildUrl` sets the defined parameters on
  `https://api.polygon.io/v3/reference/tickers`, in order.
- `makeRequest`: the API-key check, the `apikey` parameter on a copy of
  the URL, and the routing of every fetch outcome to the error it raises.
- Assembly of the page: the status check, the transformation of each row
  into a display item with deterministic synthetic metrics, and the
  cursor of the next page.
- The options of the infinite query: the query key, the per-page
  parameters, the next-page rule and the retry policy.
- The older single-file client, which implements the same pipeline.
  Where it agrees with the layered one it is proved to agree; where it
  differs the proofs say exactly how.
- Three small pieces of UI logic: the windowing arithmetic of the virtual
  list, the rising-edge trigger of the infinite scroll, and the choice of
  error toast.

Modules, one per source file, plus three helpers:

| module | models |
|---|---|
| `JsValues` | `Option`, `Result`, a three-state `Field` (absent, `null`, present), JSON values, thrown values |
| `JsStrings` | `trim` with ECMAScript white space, ASCII lower-casing, `includes`, UTF-16 code units, `String(n)` |
| `Urls` | a URL as a base string plus an ordered list of query pairs; `searchParams.get`/`set`; `toString` and `new URL` |
| `Config` | `apps/web/src/lib/api/config.ts` |
| `Errors` | `apps/web/src/lib/api/errors.ts` |
| `Schemas` | `apps/web/src/lib/api/types.ts` |
| `Transformers` | `apps/web/src/lib/api/transformers.ts` |
| `Client` | `apps/web/src/lib/api/client.ts` |
| `Tickers` | `apps/web/src/lib/api/tickers.ts` |
| `StocksQuery` | `apps/web/src/lib/stocks-query.ts` |
| `LegacyPolygonApi` | `apps/web/src/lib/polygon-api.ts` |
| `VirtualList` | the `useMemo` of `apps/web/src/components/virtual-list.tsx` |
| `InfiniteScroll` | `apps/web/src/hooks/use-infinite-scroll.ts` |
| `Toasts` | `apps/web/src/lib/toast-utils.tsx` |

`fetch` is a parameter of `MakeRequest` and `ListNasdaqTickers`. It is a
function from the URL string that is sent to an outcome: a response with
a status and a body, or a rejection. The body is itself either JSON or
the error `response.json()` rejects with. An abort is a rejection whose
error is named `AbortError`. The API key is a parameter too. The methods
return the URL they sent, or `None` when nothing was sent.

Notes on the code:

- The limit is rejected when it is not an integer in 1..1000; it is
  never clamped (`Schemas.ParseRequest`).
- In the model, where a non-string `error` in a failed body counts as
  absent (see `Client.ErrorField` under "Left out"), two differences
  separate the older client from the layered one. Both are proved as
  if-and-only-if statements.
  - A failed status other than 429, 401 and 403 whose body carries
    `"error": ""`. The layered client keeps the empty message (`??`); the
    older one falls back to "API request failed: {status}" (truthiness).
    See `LegacyPolygonApi.LegacyRouteAgrees` and
    `LegacyPolygonApi.EmptyErrorExample`. In the source a falsy
    non-string `error`, such as `0` or `false`, separates them too: the
    layered client's message is then "0" or "false", the older one's the
    default.
  - A cursor given as a URL whose `cursor` parameter is empty. The
    layered client sends `cursor=`; the older one omits the parameter.
    See `LegacyPolygonApi.LegacyQueryAgrees`.
  The parameter order differs as well (`limit` before `active` in the
  older one), which no lookup can observe (`LegacyPolygonApi.LegacyOrderDiffers`).
- `toLowerCase().includes("rate limit")` is modelled by ASCII
  lower-casing. This is exact for this needle. The only characters whose
  full lower case contains ASCII letters are
  - U+0130, which lowercases to `i` followed by U+0307, so the text
    around it cannot match;
  - the Kelvin sign, which lowercases to `k`, a letter not in the needle.
- With a scroll position far above the list, `end + 1` is negative and
  `slice` counts it from the end, so rows are rendered although none is
  in view (`VirtualList.FarOverscroll`). Ordinary scroll positions are
  never negative.

## Model

| member | source | states |
|---|---|---|
| `JsStrings.Trim` | apps/web/src/lib/api/transformers.ts:5 | the result is an infix of the input, all white space is on either side of it, and it neither starts nor ends with white space |
| `JsStrings.TrimIdempotent` | apps/web/src/lib/api/types.ts:10 | trimming a trimmed search again changes nothing, so the schema's own trim is a no-op after `normalizeSearch` |
| `JsStrings.TrimEmptyIffAllWhite` | apps/web/src/lib/api/transformers.ts:5-6 | the trimmed text is empty exactly when the input is all white space |
| `JsStrings.Contains` | apps/web/src/lib/toast-utils.tsx:6-7 | `includes` holds exactly when the needle occurs at some index |
| `JsStrings.Utf16` | apps/web/src/lib/api/transformers.ts:36-37 | every code unit is below 0x10000; there are at least as many units as characters, and exactly as many when all characters are in the Basic Multilingual Plane |
| `JsStrings.Utf16OfBmp` | apps/web/src/lib/api/transformers.ts:36-37 | a string of Basic Multilingual Plane characters is stored as its own code points, one unit per character, so `charCodeAt(i)` is the i-th character's code point |
| `JsStrings.NatToString` | apps/web/src/lib/api/tickers.ts:41 | `String(n)` is non-empty decimal digits with no leading zero that denote `n` |
| `Urls.Get` | apps/web/src/lib/api/transformers.ts:14 | a value comes back exactly when some pair has the name |
| `Urls.GetIsFirst` | apps/web/src/lib/api/transformers.ts:14 | the value found is that of the first pair with the name: no earlier pair has it |
| `Urls.SetParam` | apps/web/src/lib/api/client.ts:76 | after `set` the name reads the new value, every other name reads what it read before, and a new name is appended at the end |
| `Urls.SetParamReplacesFirst` | apps/web/src/lib/api/client.ts:25 | on a name already present, `set` gives its first pair the new value in place, keeps every pair before it, and removes the later pairs of that name |
| `Urls.Set` | apps/web/src/lib/api/client.ts:25 | `set` on a URL keeps its base, makes the name read the new value and leaves every other parameter unchanged |
| `Urls.ToString` | apps/web/src/lib/api/client.ts:24-28 | the serialised URL starts with its base, and is the base alone exactly when there is no query |
| `Urls.Parse` | apps/web/src/lib/api/transformers.ts:13 | `new URL` succeeds exactly on strings that start with a scheme; the host check of special schemes and the stripping of surrounding spaces are not modelled |
| `Urls.ParseToString` | apps/web/src/lib/api/client.ts:24 | `new URL(url.toString())` gives back an equal URL for a well-formed URL, so the key is set on a copy |
| `Errors.FromResponse` | apps/web/src/lib/api/errors.ts:16-38 | the status is always kept; 429, 401 and 403 carry their fixed message and code (and only they carry a code); for any other status the message is the body's message when defined, even empty, and otherwise "API request failed: {status}" |
| `Errors.FromResponseIgnoresMessage` | apps/web/src/lib/api/errors.ts:18-36 | two body messages give the same error exactly when the status is 429, 401 or 403, or when both resolve to the same message |
| `Errors.StatusFailedMessageInjective` | apps/web/src/lib/api/errors.ts:34 | two default messages are equal exactly when their statuses are |
| `Errors.NetworkError` | apps/web/src/lib/api/errors.ts:40-46 | "Network error: " followed by the error's message, or by "Unknown error" for a value that is not an `Error`; no status, no code |
| `Errors.MissingApiKey` | apps/web/src/lib/api/errors.ts:48-52 | the fixed configuration message, with no status and no code |
| `Errors.InvalidResponse` | apps/web/src/lib/api/errors.ts:54-56 | the diagnostic after "Unexpected response from Polygon: ", with no status and no code |
| `Schemas.ParseRequest` | apps/web/src/lib/api/types.ts:7-11 | success exactly when the limit (default 20) is an integer in 1..1000 and a present search trims to 1..50 code units; then the limit is that number, the cursor is passed unchanged and the search is trimmed and never empty; a failure names `limit` and `search` exactly when each was rejected |
| `Schemas.ParseTicker` | apps/web/src/lib/api/types.ts:13-16 | a row passes exactly when it has the ticker shape (an object with a string `ticker` and a string, null or absent `name`); then the ticker and the name state are read as given |
| `Schemas.ParseTickers` | apps/web/src/lib/api/types.ts:13-16 | the array passes exactly when every row passes, and the parsed rows are the rows, one for one |
| `Schemas.ParseResponse` | apps/web/src/lib/api/types.ts:18-25 | success exactly when the body has the required shape (string status, optional string error and request id, optional integer count, next URL string, null or absent, every row with a string ticker and a string, null or absent name); each field is then read as given and a missing `results` is empty; a failure names at least one field |
| `Schemas.TickersShape` | apps/web/src/lib/api/types.ts:21 | a `results` array passes exactly when every row has the ticker shape |
| `Schemas.TickerRoundTrip` | apps/web/src/lib/api/types.ts:13-16 | validating the JSON of a ticker row gives that row back, whatever its name state |
| `Schemas.TickersRoundTrip` | apps/web/src/lib/api/types.ts:21 | validating the JSON of a list of rows gives that list back |
| `Schemas.ResponseRoundTrip` | apps/web/src/lib/api/types.ts:18-25 | validating the JSON of any response gives that response back |
| `Transformers.NormalizeSearch` | apps/web/src/lib/api/transformers.ts:4-7 | absent input stays absent; present input becomes absent exactly when it is all white space, and otherwise becomes its non-empty trimmed text |
| `Transformers.NormalizeSearchIdempotent` | apps/web/src/lib/api/transformers.ts:4-7 | normalising twice is normalising once |
| `Transformers.ExtractCursor` | apps/web/src/lib/api/transformers.ts:9-18 | absent for a missing or empty input and for a string that does not parse; otherwise the `cursor` parameter of the parsed URL, absent when it has none |
| `Transformers.ExtractCursorOfToString` | apps/web/src/lib/api/transformers.ts:9-18 | the cursor read from the string of a well-formed URL is that URL's `cursor` parameter |
| `Transformers.LooksLikeUrl` | apps/web/src/lib/api/transformers.ts:23 | definition (`http://` or `https://` occurs in the ASCII lower case); stated by `Transformers.SafeCursor` and `Transformers.SafeCursorOfNextUrl` |
| `Transformers.SafeCursor` | apps/web/src/lib/api/transformers.ts:20-28 | a missing or empty cursor is absent; a non-empty cursor that does not contain `http://` or `https://` (ignoring case) is passed unchanged; one that does is replaced by `extractCursor` of it |
| `Transformers.SafeCursorOfNextUrl` | apps/web/src/lib/api/transformers.ts:23-25 | a next-page `https://` URL passed back as a cursor becomes its own `cursor` parameter |
| `Transformers.Hash` | apps/web/src/lib/api/transformers.ts:35-38 | the rolling hash is in 0..99999 |
| `Transformers.MetricsOfHash` | apps/web/src/lib/api/transformers.ts:40-42 | the price is in 50..999, the change in tenths of a percent is in -100..99, the change is price times change percent over 100, and the change has the sign of the change percent |
| `Transformers.DeriveMetrics` | apps/web/src/lib/api/transformers.ts:30-45 | the hash loop computes the rolling hash of the ticker's UTF-16 code units, so the result is a function of the ticker alone and lies within the bounds above |
| `Transformers.DeriveMetricsTwice` | apps/web/src/lib/api/transformers.test.ts:49-53 | two calls on one ticker give equal metrics |
| `Transformers.AaplMetrics` | apps/web/src/lib/api/transformers.ts:35-42 | "AAPL" hashes to 1436: price 536, change percent 1.0, change 5.36 |
| `Transformers.TransformToStockItem` | apps/web/src/lib/api/transformers.ts:47-56 | the ticker is kept; the name is the row's name when present, even empty, and the ticker when null or missing; the metrics are those of the ticker |
| `Transformers.TransformToStockItems` | apps/web/src/lib/api/transformers.ts:58-60 | one item per row, in order: item i is the transform of row i |
| `Transformers.TransformConcat` | apps/web/src/lib/api/transformers.ts:58-60 | transforming a concatenation is concatenating the transforms |
| `Client.DefinedParams` | apps/web/src/lib/api/client.ts:74-78 | the query never has more pairs than the record has entries; its content (defined entries only, in entry order) is stated by `Client.DefinedParamsMembers`, `Client.GetDefinedParams` and `Client.BuildUrl` |
| `Client.DefinedParamsMembers` | apps/web/src/lib/api/client.ts:74-78 | every defined entry appears as a pair of the query and every pair comes from a defined entry; when all entries are defined the query is the record, entry by entry |
| `Client.GetDefinedParams` | apps/web/src/lib/api/client.ts:74-78 | for a record with distinct names, each name reads back its value when defined and nothing when undefined |
| `Client.BuildUrl` | apps/web/src/lib/api/client.ts:68-81 | the `forEach` loop yields the base `BASE_URL + endpoint` and exactly the defined parameters, in entry order, each reading back its own value |
| `Client.IsOk` | apps/web/src/lib/api/client.ts:32 | definition (`response.ok`: a status in 200..299); stated by `Client.Route` |
| `Client.ErrorField` | apps/web/src/lib/api/client.ts:34-40 | the body's message is defined exactly when the body parsed into an object holding a string `error`, and then it is that string |
| `Client.Caught` | apps/web/src/lib/api/client.ts:46-62 | an abort is rethrown unchanged; anything else becomes a network error |
| `Client.Route` | apps/web/src/lib/api/client.ts:27-62 | success exactly for an ok response with a readable body, which is returned; a failed status gives `fromResponse(status, body.error)`; a rejection or an unreadable ok body goes through the outer `catch`; every failure is the pipeline's own error or an abort, and it carries a status exactly when the response had a failed status |
| `Client.MakeRequest` | apps/web/src/lib/api/client.ts:15-63 | with no key or an empty one, nothing is sent and the missing-key error is raised; otherwise the URL sent is the input with `apikey` set, and the result is the routing of what `fetch` returned |
| `Client.SentUrlCarriesKey` | apps/web/src/lib/api/client.ts:24-25 | for a well-formed URL (no `&` or `#` in a name or value, since encoding is not modelled), the URL sent parses back with the key under `apikey` and every other parameter as it was |
| `Tickers.NormalizedSearchAccepted` | apps/web/src/lib/api/types.ts:10 | a normalised search passes the schema exactly when it is at most 50 code units long |
| `Tickers.ValidateParams` | apps/web/src/lib/api/tickers.ts:29-33 | success exactly when the limit (20 when absent, so an explicit 0 or 1001 fails) is an integer in 1..1000 and the normalised search is at most 50 units; then the cursor is `safeCursor` of the input and the search its normalisation; a failure is the validation error, naming `limit` exactly when the limit was rejected |
| `Tickers.RequestUrl` | apps/web/src/lib/api/tickers.ts:36-44 | the request goes to the tickers endpoint of the API base |
| `Tickers.RequestUrlQuery` | apps/web/src/lib/api/tickers.ts:36-44 | the query is market=stocks, exchange=XNAS, sort=ticker, active=true and the limit in decimal, in that order, then the search and then the cursor, each exactly when defined |
| `Tickers.RequestUrlParams` | apps/web/src/lib/api/tickers.ts:36-44 | reading the query back gives the market, the search, the cursor and a limit whose decimal value is the validated limit |
| `Tickers.StatusMessage` | apps/web/src/lib/api/tickers.ts:58-62 | the body's `error` verbatim when present, even empty; otherwise "Polygon request failed with status: " followed by the status |
| `Tickers.AssembleResponse` | apps/web/src/lib/api/tickers.ts:50-71 | a body of the wrong shape gives the invalid-response error; a status other than "OK" gives its `error` verbatim or "Polygon request failed with status: {status}", with no status or code; otherwise the page holds the transformed rows, the next URL with null made absent, its extracted cursor, and the count and request id unchanged |
| `Tickers.AssembleOfBody` | apps/web/src/lib/api/tickers.ts:65-71 | a body whose next URL is a well-formed URL gives a page whose next cursor is that URL's `cursor` parameter |
| `Tickers.AssembleOfFailedStatus` | apps/web/src/lib/api/tickers.ts:58-62 | a body with a status other than "OK" fails with the status message, whatever its rows |
| `Tickers.ListNasdaqTickers` | apps/web/src/lib/api/tickers.ts:24-72 | invalid parameters raise the validation error and nothing is sent; otherwise the request is `makeRequest` on the tickers URL and its result is assembled into the page |
| `Tickers.NextUrlAsCursor` | apps/web/src/lib/api/tickers.ts:31 | passing a next-page URL as the cursor sends that URL's own cursor |
| `StocksQuery.TickersQueryKey` | apps/web/src/lib/stocks-query.ts:11-14 | the key is "tickers" with the trimmed search |
| `StocksQuery.QueryKeyIgnoresWhiteSpace` | apps/web/src/lib/stocks-query.ts:14 | searches with the same trimmed text share a key |
| `StocksQuery.QueryFnParams` | apps/web/src/lib/stocks-query.ts:16-24 | each page is asked with the page cursor, a limit of 20 and the normalised search |
| `StocksQuery.KeyMatchesRequest` | apps/web/src/lib/stocks-query.ts:14-18 | the search recorded in the key is the search that is sent |
| `StocksQuery.PageRequestValid` | apps/web/src/lib/stocks-query.ts:17-21 | every page request with a search of at most 50 units passes validation with a limit of 20 |
| `StocksQuery.GetNextPageParam` | apps/web/src/lib/stocks-query.ts:25 | definition (the last page's next cursor); its meaning is stated by `StocksQuery.NextPageOfBody` and `StocksQuery.NextRequestCarriesCursor` |
| `StocksQuery.NextPageOfBody` | apps/web/src/lib/stocks-query.ts:25 | a page with no next URL, or a null one, ends the list; a page whose next URL is well-formed leads to that URL's cursor |
| `StocksQuery.NextRequestCarriesCursor` | apps/web/src/lib/stocks-query.ts:16-25 | the next request sends the plain cursor the last page returned |
| `StocksQuery.IsRateLimited` | apps/web/src/lib/stocks-query.ts:28-29 | definition (a pipeline error whose code is RATE_LIMIT or whose status is 429); stated by `StocksQuery.Retry` and `StocksQuery.RateLimitResponseNotRetried` |
| `StocksQuery.Retry` | apps/web/src/lib/stocks-query.ts:27-31 | a rate-limited error (code RATE_LIMIT or status 429) is never retried; anything else is retried while the count of earlier failures, which starts at 0, is below 2: at most three attempts, retried after the first and the second failure, never after the third |
| `StocksQuery.RetryMonotone` | apps/web/src/lib/stocks-query.ts:30 | once retrying stops for a count it stops for every larger count |
| `StocksQuery.RateLimitResponseNotRetried` | apps/web/src/lib/stocks-query.ts:29 | the error of a 429 response is never retried |
| `StocksQuery.RetriesBounded` | apps/web/src/lib/stocks-query.ts:30 | at most three attempts: a retry is granted only for a failure count of 0 or 1, so never after the third failure |
| `LegacyPolygonApi.LegacyNormalizeSearch` | apps/web/src/lib/polygon-api.ts:45-48 | the older search normalisation equals the layered one |
| `LegacyPolygonApi.LegacyDeriveMetrics` | apps/web/src/lib/polygon-api.ts:50-61 | the older hash loop computes the same metrics as the layered one |
| `LegacyPolygonApi.GetNextCursor` | apps/web/src/lib/polygon-api.ts:63-74 | the older cursor extraction equals `extractCursor`, with null the same as absent |
| `LegacyPolygonApi.MapToStocks` | apps/web/src/lib/polygon-api.ts:76-87 | the older mapping equals `transformToStockItems` |
| `LegacyPolygonApi.LegacySafeCursor` | apps/web/src/lib/polygon-api.ts:187-195 | the inline sanitising keeps an empty cursor as it is and otherwise equals `safeCursor` |
| `LegacyPolygonApi.Truthy` | apps/web/src/lib/polygon-api.ts:210-216 | a value counts as given exactly when it is a non-empty string |
| `LegacyPolygonApi.LegacyQueryShape` | apps/web/src/lib/polygon-api.ts:203-216 | the older query is market, exchange, sort, limit, active, then the search and the cursor each exactly when non-empty |
| `LegacyPolygonApi.LegacyBuildUrl` | apps/web/src/lib/polygon-api.ts:203-216 | the sequence of `set` calls builds the tickers URL with that query |
| `LegacyPolygonApi.LegacyQueryAgrees` | apps/web/src/lib/polygon-api.ts:203-216 | every parameter reads the same in both clients, except an empty cursor, which only the layered client sends |
| `LegacyPolygonApi.LegacyOrderDiffers` | apps/web/src/lib/polygon-api.ts:207-208 | the fourth pair is `limit` in the older query and `active` in the layered one |
| `LegacyPolygonApi.LegacyErrorField` | apps/web/src/lib/polygon-api.ts:126-134 | the older client uses the body's message only when it is non-empty |
| `LegacyPolygonApi.LegacyRoute` | apps/web/src/lib/polygon-api.ts:107-156 | success exactly for an ok response with a readable body, which is returned; a failed status gives the same error as `fromResponse` with the truthy body message; a rejection or an unreadable ok body goes through the outer `catch` |
| `LegacyPolygonApi.LegacyRouteAgrees` | apps/web/src/lib/polygon-api.ts:107-156 | in the model, where a non-string `error` counts as absent, the two clients route an outcome differently exactly when it is a failed status other than 429, 401 and 403 whose body has an empty `error` |
| `LegacyPolygonApi.EmptyErrorExample` | apps/web/src/lib/polygon-api.ts:126-136 | a 500 with `{"error": ""}` has an empty message in the layered client and the default message in the older one |
| `LegacyPolygonApi.LegacyMakeRequest` | apps/web/src/lib/polygon-api.ts:89-157 | with no key nothing is sent and the missing-key error is raised; otherwise the URL sent carries `apikey` and the result is the older routing of the outcome |
| `LegacyPolygonApi.LegacyAssembleResponse` | apps/web/src/lib/polygon-api.ts:219-241 | the older response handling builds the same page, or raises the same error, as the layered one |
| `LegacyPolygonApi.LegacyListNasdaqTickers` | apps/web/src/lib/polygon-api.ts:179-242 | invalid parameters send nothing; otherwise the older URL is sent with the key and its outcome is assembled |
| `LegacyPolygonApi.LegacyValidateAgrees` | apps/web/src/lib/polygon-api.ts:197-201 | both clients accept the same parameters, with the same limit, the same search and the same cursor up to emptiness |
| `VirtualList.Ceil` | apps/web/src/components/virtual-list.tsx:28 | `Math.ceil`: the least integer not below its argument |
| `VirtualList.JsSlice` | apps/web/src/components/virtual-list.tsx:35 | `slice` gives max(0, b - a) items, entry k being the item at a + k, where a and b are the two indices as `slice` reads them |
| `VirtualList.SliceNegativeEnd` | apps/web/src/components/virtual-list.tsx:35 | a negative end within the list is counted back from its length |
| `VirtualList.SliceNegativeStart` | apps/web/src/components/virtual-list.tsx:35 | a negative start within the list is counted back from its length |
| `VirtualList.SliceNonNegative` | apps/web/src/components/virtual-list.tsx:35 | with non-negative indices both ends are clamped to the length, and an empty range gives nothing |
| `VirtualList.VisibleStart` | apps/web/src/components/virtual-list.tsx:25 | the first visible row is the one whose span contains the scroll position |
| `VirtualList.VisibleEnd` | apps/web/src/components/virtual-list.tsx:26-29 | the last visible row is at most the last row, and unless it is the last row the rows from the first visible one up to it are at least as tall as the container |
| `VirtualList.Start` | apps/web/src/components/virtual-list.tsx:32 | the first rendered index is never negative |
| `VirtualList.End` | apps/web/src/components/virtual-list.tsx:33 | the last rendered index is at most n - 1 |
| `VirtualList.ComputeWindow` | apps/web/src/components/virtual-list.tsx:25-45 | total height is n times the row height and the offset is start times the row height; every rendered entry carries a valid index and the item at that index |
| `VirtualList.WindowIsContiguous` | apps/web/src/components/virtual-list.tsx:35-38 | the rendered entries are the run from start to end, entry k carrying index start + k |
| `VirtualList.EmptyWindow` | apps/web/src/components/virtual-list.tsx:33-35 | an empty list, or a start past the end, renders nothing |
| `VirtualList.WindowAtTop` | apps/web/src/components/virtual-list.tsx:26-43 | at scroll position 0 the start and the offset are 0 |
| `VirtualList.WindowSizeBound` | apps/web/src/components/virtual-list.tsx:27-33 | at most ceil(container / row height) + 2 * overscan + 1 rows are rendered |
| `VirtualList.WindowCoversViewport` | apps/web/src/components/virtual-list.tsx:26-38 | every row between the first and the last visible one is rendered |
| `VirtualList.ExploreScreenWindow` | apps/web/src/components/explore-screen.tsx:223-229 | with rows of 180, a container of 600 and overscan 5, at most 15 rows are rendered |
| `VirtualList.FarOverscroll` | apps/web/src/components/virtual-list.tsx:32-35 | 20 rows scrolled to -3600 render 10 rows, through the negative `slice` end |
| `InfiniteScroll.EffectStep` | apps/web/src/hooks/use-infinite-scroll.ts:37-42 | a guarded run fetches nothing and keeps the recorded value; otherwise it fetches exactly on a rising edge and records the current value |
| `InfiniteScroll.NoRefireWhileInView` | apps/web/src/hooks/use-infinite-scroll.ts:39-42 | once in view is recorded, staying in view never fetches again |
| `InfiniteScroll.AtMostOneFetchWhileInView` | apps/web/src/hooks/use-infinite-scroll.ts:37-49 | staying in view over any number of runs fetches at most once |
| `InfiniteScroll.NoFetchBeforeScroll` | apps/web/src/hooks/use-infinite-scroll.ts:38 | before the first scroll no run fetches |
| `InfiniteScroll.InfiniteScrollState.constructor` | apps/web/src/hooks/use-infinite-scroll.ts:19-36 | the scroll flag and the recorded intersection start false |
| `InfiniteScroll.InfiniteScrollState.OnScroll` | apps/web/src/hooks/use-infinite-scroll.ts:27-34 | the scroll flag becomes true and the recorded intersection is untouched |
| `InfiniteScroll.InfiniteScrollState.ObserverEnabled` | apps/web/src/hooks/use-infinite-scroll.ts:24 | the observer is enabled exactly when there is a next page and the user has scrolled |
| `InfiniteScroll.InfiniteScrollState.RunEffect` | apps/web/src/hooks/use-infinite-scroll.ts:37-49 | a run keeps the scroll flag, fetches and records as `EffectStep` says, and fetches only after a scroll, with a next page and no fetch in flight |
| `Toasts.ShowErrorToast` | apps/web/src/lib/toast-utils.tsx:4-26 | a message or error mentioning "rate limit" in any case gives the warning "Rate limit reached" for 15000 ms; anything else gives the destructive "Error" toast with the message verbatim, 10000 ms and a Dismiss action |
| `Toasts.NoErrorInspectsMessage` | apps/web/src/lib/toast-utils.tsx:5-7 | without an error, the toast warns exactly when the message mentions a rate limit |
| `Toasts.ErrorMessageDecides` | apps/web/src/lib/toast-utils.tsx:5-7 | an error mentioning a rate limit gives the warning whatever the message |
| `Toasts.RateLimitMessageMentions` | apps/web/src/lib/api/errors.ts:19-23 | the fixed 429 message mentions a rate limit |
| `Toasts.RateLimitErrorWarns` | apps/web/src/lib/toast-utils.tsx:5-16 | the error of a 429 response is shown as the rate-limit warning |

## Left out

- Network I/O, `response.json()`, AbortSignal plumbing and async scheduling are not modelled. `fetch` is a function parameter; an abort is a rejection named `AbortError`.
- WHATWG URL parsing is simplified. The model parses a scheme, the part before `?`, and `&`/`=` pairs, and drops the fragment. Percent-encoding and decoding, `+` as space, and host and path normalisation are not modelled; the serialised URL is the plain concatenation.
- Client.SentUrlCarriesKey: holds only for a well-formed URL. A search such as `AT&T` puts an `&` in a value; the source percent-encodes it and round-trips, while the model serialises it plainly, so `Urls.Parse` of the sent string does not give the URL back.
- Urls.Parse: the WHATWG host check is not modelled, so `https://?cursor=abc` and `http:?cursor=x`, which `new URL` rejects for an empty host, parse here and yield their `cursor`. Nor is the stripping of leading and trailing spaces, so ` https://h/?cursor=a`, which `new URL` accepts, is rejected here. `Transformers.ExtractCursor` and `Transformers.SafeCursor` inherit both differences.
- `/https?:\/\//i` is modelled as a case-insensitive substring test of `http://` and `https://`.
- `new URL(BASE_URL + endpoint)` is taken to succeed: the base is a constant with a scheme.
- Numbers are exact `real`s. NaN, infinities, `-0` and rounding are not modelled, and `change` is an exact rational. The limit is a `real` that must be an integer.
- Strings are sequences of Unicode scalar values, so lone surrogates cannot be written. `charCodeAt` is read through the UTF-16 encoding of those values.
- The zod error text is not modelled: a rejected body yields the names of the failing fields, joined by ", ", where zod prints its own diagnostic. Zod's stripping of unknown keys is implicit in the datatypes.
- Client.ErrorField: a non-string `error` in a failed body (a number, an object) is treated as absent. The source passes it on, and it becomes the message through `String`.
- The error's `name` property and the `instanceof` tests are implicit in the `Thrown` datatype. The `PolygonApiError` raised inside the `try` is rethrown unchanged; the model returns it directly instead of throwing and catching it.
- The URL copy in `makeRequest` is modelled on values. That the caller's URL object is not changed (no aliasing) holds by construction, and `Urls.ParseToString` proves the copy is equal for a well-formed URL (no `&` or `#` in a name or value, since encoding is not modelled).
- LegacyPolygonApi.LegacyBuildUrl: the seven `set` calls are modelled as `buildUrl` over the parameter record with truthy search and cursor, in the older order. The two agree because every name is set once on an empty query.
- LegacyPolygonApi.LegacyQueryAgrees: assumes the validated search is not empty, which validation guarantees (`Schemas.ParseRequest`).
- TanStack Query internals are not modelled: caching, page merging, `placeholderData`, running the retries, and suspense. Only the options given to it are.
- The scroll handler of the virtual list and the React state behind it are not modelled; `scrollTop` is an input.
- VirtualList.ComputeWindow: requires a positive row height. The source would divide by zero, giving Infinity or NaN.
- The IntersectionObserver, its `threshold` and `rootMargin`, and the window scroll listener are not modelled; `isIntersecting` and the scroll event are inputs.
- The `toast` call is not modelled; `ShowErrorToast` returns the configuration it would show. The optional `Error` is given by its message.
- Formatting helpers, mock data, timers, randomness and React rendering are outside the pipeline.
