/** The request and response schemas as explicit structural checks. A
    rejected value yields the names of the fields that failed, in the order
    the schema declares them (the root of a response that is not an object
    is named ""). */
module Schemas {
  import opened JsValues
  import opened JsStrings

  // ---------------------------------------------------------------------
  // Request schema

  /** `Number.isInteger` on a finite number. */
  predicate IsInteger(x: real) {
    x.Floor as real == x
  }

  /** `z.number().int().min(1).max(1000)`. */
  predicate AcceptedLimit(x: real) {
    IsInteger(x) && 1.0 <= x <= 1000.0
  }

  /** `z.string().trim().min(1).max(50)`: the lengths are those of the
      trimmed text, counted in UTF-16 code units. */
  predicate AcceptedSearch(s: string) {
    1 <= JsLength(Trim(s)) <= 50
  }

  /** The object handed to `requestSchema.parse`. */
  datatype RequestInput = RequestInput(limit: Option<real>, cursor: Option<string>, search: Option<string>)

  /** What `requestSchema.parse` returns. */
  datatype ParsedRequest = ParsedRequest(limit: int, cursor: Option<string>, search: Option<string>)

  /** `requestSchema.parse`: the limit defaults to 20 and must be an integer
      in 1..1000 (it is never clamped); the cursor is any string; a search
      is trimmed and must then be 1..50 long. */
  function ParseRequest(input: RequestInput): (r: Result<ParsedRequest, seq<string>>)
    ensures r.Success? <==> AcceptedLimit(input.limit.GetOr(20.0))
                            && (input.search.None? || AcceptedSearch(input.search.value))
    ensures r.Success? ==> 1 <= r.value.limit <= 1000
                           && r.value.limit as real == input.limit.GetOr(20.0)
    ensures r.Success? ==> r.value.cursor == input.cursor
    ensures r.Success? ==> r.value.search == if input.search.None? then None else Some(Trim(input.search.value))
    ensures r.Success? ==> r.value.search != Some("")
    ensures r.Failure? ==> ("limit" in r.error <==> !AcceptedLimit(input.limit.GetOr(20.0)))
    ensures r.Failure? ==> ("search" in r.error <==> input.search.Some? && !AcceptedSearch(input.search.value))
  {
    var limit := input.limit.GetOr(20.0);
    var limitOk := AcceptedLimit(limit);
    var searchOk := input.search.None? || AcceptedSearch(input.search.value);
    if limitOk && searchOk then
      Success(ParsedRequest(limit.Floor, input.cursor,
                            if input.search.None? then None else Some(Trim(input.search.value))))
    else
      Failure((if limitOk then [] else ["limit"]) + (if searchOk then [] else ["search"]))
  }

  // ---------------------------------------------------------------------
  // Response schema

  /** A result row after `polygonTickerSchema`. */
  datatype PolygonTicker = PolygonTicker(ticker: string, name: Field<string>)

  /** A body after `polygonResponseSchema` (unknown keys are stripped). */
  datatype PolygonResponse = PolygonResponse(
    status: string,
    error: Option<string>,
    results: seq<PolygonTicker>,
    nextUrl: Field<string>,
    requestId: Option<string>,
    count: Option<int>)

  function Lookup(fields: map<string, Json>, key: string): Option<Json> {
    if key in fields then Some(fields[key]) else None
  }

  /** `z.string()`; `None` when rejected. */
  function RequiredString(v: Option<Json>): Option<string> {
    if v.Some? && v.value.JString? then Some(v.value.s) else None
  }

  /** `z.string().optional()`: missing is fine, `null` is not. */
  function OptionalString(v: Option<Json>): Option<Option<string>> {
    if v.None? then Some(None)
    else if v.value.JString? then Some(Some(v.value.s))
    else None
  }

  /** `z.string().optional().nullable()`. */
  function NullableString(v: Option<Json>): Option<Field<string>> {
    if v.None? then Some(Absent)
    else if v.value.JNull? then Some(Null)
    else if v.value.JString? then Some(Present(v.value.s))
    else None
  }

  /** `z.number().int().optional()`. */
  function OptionalInt(v: Option<Json>): Option<Option<int>> {
    if v.None? then Some(None)
    else if v.value.JNumber? && IsInteger(v.value.n) then Some(Some(v.value.n.Floor))
    else None
  }

  /** `polygonTickerSchema`. */
  function ParseTicker(j: Json): (r: Option<PolygonTicker>)
    ensures r.Some? <==> TickerShape(j)
    ensures r.Some? ==> j.fields["ticker"] == JString(r.value.ticker)
    ensures r.Some? ==> r.value.name == NullableString(Lookup(j.fields, "name")).value
  {
    if !j.JObject? then None
    else
      var ticker := RequiredString(Lookup(j.fields, "ticker"));
      var name := NullableString(Lookup(j.fields, "name"));
      if ticker.Some? && name.Some? then Some(PolygonTicker(ticker.value, name.value)) else None
  }

  /** `z.array(polygonTickerSchema)`: every element must pass. */
  function ParseTickers(items: seq<Json>): (r: Option<seq<PolygonTicker>>)
    ensures r.Some? <==> forall i :: 0 <= i < |items| ==> ParseTicker(items[i]).Some?
    ensures r.Some? ==> |r.value| == |items|
                        && forall i :: 0 <= i < |items| ==> Some(r.value[i]) == ParseTicker(items[i])
  {
    if items == [] then Some([])
    else
      var head := ParseTicker(items[0]);
      var tail := ParseTickers(items[1..]);
      assert forall i :: 1 <= i < |items| ==> items[i] == items[1..][i - 1];
      if head.Some? && tail.Some? then Some([head.value] + tail.value) else None
  }

  /** `.default([])`: a missing `results` is the empty list. */
  function ParseResults(v: Option<Json>): Option<seq<PolygonTicker>> {
    if v.None? then Some([])
    else if v.value.JArray? then ParseTickers(v.value.items)
    else None
  }

  /** The structural requirement on a body, field by field. */
  ghost predicate TickerShape(j: Json) {
    && j.JObject?
    && "ticker" in j.fields && j.fields["ticker"].JString?
    && ("name" in j.fields ==> j.fields["name"].JNull? || j.fields["name"].JString?)
  }

  ghost predicate ResponseShape(raw: Json) {
    && raw.JObject?
    && "status" in raw.fields && raw.fields["status"].JString?
    && ("error" in raw.fields ==> raw.fields["error"].JString?)
    && ("results" in raw.fields ==>
          raw.fields["results"].JArray?
          && forall i :: 0 <= i < |raw.fields["results"].items| ==> TickerShape(raw.fields["results"].items[i]))
    && ("next_url" in raw.fields ==> raw.fields["next_url"].JNull? || raw.fields["next_url"].JString?)
    && ("request_id" in raw.fields ==> raw.fields["request_id"].JString?)
    && ("count" in raw.fields ==> raw.fields["count"].JNumber? && IsInteger(raw.fields["count"].n))
  }

  /** Names of the rejected fields, in schema order. */
  function RejectedFields(f: map<string, Json>): seq<string> {
    (if RequiredString(Lookup(f, "status")).None? then ["status"] else [])
    + (if OptionalString(Lookup(f, "error")).None? then ["error"] else [])
    + (if ParseResults(Lookup(f, "results")).None? then ["results"] else [])
    + (if NullableString(Lookup(f, "next_url")).None? then ["next_url"] else [])
    + (if OptionalString(Lookup(f, "request_id")).None? then ["request_id"] else [])
    + (if OptionalInt(Lookup(f, "count")).None? then ["count"] else [])
  }

  /** `polygonResponseSchema.safeParse`: accepts exactly the bodies of the
      required shape and reads each field; `results` defaults to the empty
      list. */
  function ParseResponse(raw: Json): (r: Result<PolygonResponse, seq<string>>)
    ensures r.Success? <==> ResponseShape(raw)
    ensures r.Failure? ==> r.error != []
    ensures r.Success? ==> raw.fields["status"] == JString(r.value.status)
    ensures r.Success? ==> r.value.error == OptionalString(Lookup(raw.fields, "error")).value
    ensures r.Success? && "results" !in raw.fields ==> r.value.results == []
    ensures r.Success? && "results" in raw.fields ==>
              |r.value.results| == |raw.fields["results"].items|
              && forall i :: 0 <= i < |r.value.results| ==>
                   Some(r.value.results[i]) == ParseTicker(raw.fields["results"].items[i])
    ensures r.Success? ==> r.value.nextUrl == NullableString(Lookup(raw.fields, "next_url")).value
    ensures r.Success? ==> r.value.requestId == OptionalString(Lookup(raw.fields, "request_id")).value
    ensures r.Success? ==> r.value.count == OptionalInt(Lookup(raw.fields, "count")).value
  {
    if !raw.JObject? then Failure([""])
    else
      var f := raw.fields;
      var status := RequiredString(Lookup(f, "status"));
      var error := OptionalString(Lookup(f, "error"));
      var results := ParseResults(Lookup(f, "results"));
      var nextUrl := NullableString(Lookup(f, "next_url"));
      var requestId := OptionalString(Lookup(f, "request_id"));
      var count := OptionalInt(Lookup(f, "count"));
      TickersShape(if "results" in f && f["results"].JArray? then f["results"].items else []);
      if status.Some? && error.Some? && results.Some? && nextUrl.Some? && requestId.Some? && count.Some? then
        Success(PolygonResponse(status.value, error.value, results.value, nextUrl.value, requestId.value, count.value))
      else
        Failure(RejectedFields(f))
  }

  lemma TickersShape(items: seq<Json>)
    ensures ParseTickers(items).Some? <==> forall i :: 0 <= i < |items| ==> TickerShape(items[i])
  {
    forall i | 0 <= i < |items| ensures ParseTicker(items[i]).Some? <==> TickerShape(items[i]) {
    }
  }

  // ---------------------------------------------------------------------
  // The response schema reads back what a well-formed body carries

  function TickerToJson(t: PolygonTicker): Json {
    var f := map["ticker" := JString(t.ticker)];
    JObject(match t.name
            case Absent => f
            case Null => f["name" := JNull]
            case Present(n) => f["name" := JString(n)])
  }

  function TickersToJson(ts: seq<PolygonTicker>): (r: seq<Json>)
    ensures |r| == |ts| && forall i :: 0 <= i < |ts| ==> r[i] == TickerToJson(ts[i])
  {
    seq(|ts|, i requires 0 <= i < |ts| => TickerToJson(ts[i]))
  }

  function WithOption(f: map<string, Json>, key: string, v: Option<Json>): map<string, Json> {
    if v.Some? then f[key := v.value] else f
  }

  /** The body an upstream server would send for `resp`. */
  function ResponseToJson(resp: PolygonResponse): Json {
    var f := map["status" := JString(resp.status), "results" := JArray(TickersToJson(resp.results))];
    var f := WithOption(f, "error", if resp.error.Some? then Some(JString(resp.error.value)) else None);
    var f := WithOption(f, "next_url", match resp.nextUrl
                                        case Absent => None
                                        case Null => Some(JNull)
                                        case Present(u) => Some(JString(u)));
    var f := WithOption(f, "request_id", if resp.requestId.Some? then Some(JString(resp.requestId.value)) else None);
    var f := WithOption(f, "count", if resp.count.Some? then Some(JNumber(resp.count.value as real)) else None);
    JObject(f)
  }

  lemma TickerRoundTrip(t: PolygonTicker)
    ensures ParseTicker(TickerToJson(t)) == Some(t)
  {
  }

  lemma {:induction false} TickersRoundTrip(ts: seq<PolygonTicker>)
    ensures ParseTickers(TickersToJson(ts)) == Some(ts)
  {
    var js := TickersToJson(ts);
    forall i | 0 <= i < |ts| ensures ParseTicker(js[i]) == Some(ts[i]) {
      TickerRoundTrip(ts[i]);
    }
    var r := ParseTickers(js);
    assert r.Some?;
    assert r.value == ts;
  }

  /** Validating the body of any response gives that response back. */
  lemma ResponseRoundTrip(resp: PolygonResponse)
    ensures ParseResponse(ResponseToJson(resp)) == Success(resp)
  {
    ReadsStatusAndResults(resp);
    ReadsError(resp);
    ReadsNextUrl(resp);
    ReadsRequestId(resp);
    ReadsCount(resp);
  }

  lemma ReadsStatusAndResults(resp: PolygonResponse)
    ensures RequiredString(Lookup(ResponseToJson(resp).fields, "status")) == Some(resp.status)
    ensures ParseResults(Lookup(ResponseToJson(resp).fields, "results")) == Some(resp.results)
  {
    TickersRoundTrip(resp.results);
  }

  lemma ReadsError(resp: PolygonResponse)
    ensures OptionalString(Lookup(ResponseToJson(resp).fields, "error")) == Some(resp.error)
  {
  }

  lemma ReadsNextUrl(resp: PolygonResponse)
    ensures NullableString(Lookup(ResponseToJson(resp).fields, "next_url")) == Some(resp.nextUrl)
  {
  }

  lemma ReadsRequestId(resp: PolygonResponse)
    ensures OptionalString(Lookup(ResponseToJson(resp).fields, "request_id")) == Some(resp.requestId)
  {
  }

  lemma ReadsCount(resp: PolygonResponse)
    ensures OptionalInt(Lookup(ResponseToJson(resp).fields, "count")) == Some(resp.count)
  {
  }
}
