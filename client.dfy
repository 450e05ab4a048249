/** The base HTTP client: building a request URL from an endpoint and a
    record of optional parameters, and sending an authenticated request,
    with the classification of every way the request can fail. `fetch` is
    an input: a function from the URL string to what the network returned. */
module Client {
  import opened JsValues
  import opened Urls
  import opened Config
  import opened Errors

  // ---------------------------------------------------------------------
  // buildUrl

  /** A parameter record in insertion order (`Object.entries`); a value
      may be `undefined`. */
  type ParamRecord = seq<(string, Option<string>)>

  /** The keys of a JavaScript object are distinct. */
  predicate DistinctKeys(params: ParamRecord) {
    forall i, j :: 0 <= i < j < |params| ==> params[i].0 != params[j].0
  }

  /** The value stored under `key` in the record, `None` when the key is
      missing or its value is `undefined`. */
  function LookupParam(params: ParamRecord, key: string): Option<string> {
    if params == [] then None
    else if params[0].0 == key then params[0].1
    else LookupParam(params[1..], key)
  }

  /** The entries whose value is defined, as query pairs, in order. */
  function DefinedParams(params: ParamRecord): (q: seq<Param>)
    ensures |q| <= |params|
  {
    if params == [] then []
    else
      var rest := DefinedParams(params[1..]);
      if params[0].1.Some? then [Param(params[0].0, params[0].1.value)] + rest else rest
  }

  /** Every defined entry gives a pair of the query, and every pair of the
      query comes from a defined entry; when all are defined the query is
      the record itself, entry by entry. */
  lemma {:induction false} DefinedParamsMembers(params: ParamRecord)
    ensures forall i :: 0 <= i < |params| && params[i].1.Some? ==>
              Param(params[i].0, params[i].1.value) in DefinedParams(params)
    ensures forall p :: p in DefinedParams(params) ==>
              exists i :: 0 <= i < |params| && params[i] == (p.key, Some(p.value))
    ensures (forall i :: 0 <= i < |params| ==> params[i].1.Some?) ==>
              |DefinedParams(params)| == |params|
              && forall i :: 0 <= i < |params| ==> DefinedParams(params)[i] == Param(params[i].0, params[i].1.value)
  {
    if params != [] {
      var tail := params[1..];
      DefinedParamsMembers(tail);
      assert forall i :: 1 <= i < |params| ==> params[i] == tail[i - 1];
      forall p | p in DefinedParams(params)
        ensures exists i :: 0 <= i < |params| && params[i] == (p.key, Some(p.value))
      {
        if p !in DefinedParams(tail) {
          assert params[0] == (p.key, Some(p.value));
        } else {
          var j :| 0 <= j < |tail| && tail[j] == (p.key, Some(p.value));
          assert params[j + 1] == tail[j];
        }
      }
    }
  }

  lemma {:induction false} DefinedParamsSnoc(params: ParamRecord, key: string, value: Option<string>)
    ensures DefinedParams(params + [(key, value)])
            == DefinedParams(params) + (if value.Some? then [Param(key, value.value)] else [])
  {
    if params == [] {
      assert [(key, value)][1..] == [];
    } else {
      assert (params + [(key, value)])[1..] == params[1..] + [(key, value)];
      DefinedParamsSnoc(params[1..], key, value);
    }
  }

  lemma {:induction false} DefinedParamsConcat(a: ParamRecord, b: ParamRecord)
    ensures DefinedParams(a + b) == DefinedParams(a) + DefinedParams(b)
  {
    if a == [] {
      assert a + b == b;
    } else {
      assert (a + b)[1..] == a[1..] + b;
      DefinedParamsConcat(a[1..], b);
    }
  }

  /** Reading a parameter of the built query is reading the record. */
  lemma {:induction false} GetDefinedParams(params: ParamRecord, key: string)
    requires DistinctKeys(params)
    ensures Get(DefinedParams(params), key) == LookupParam(params, key)
  {
    if params != [] {
      GetDefinedParams(params[1..], key);
      if params[0].0 == key && params[0].1.None? {
        NoSuchKey(params[1..], key);
      }
    }
  }

  lemma {:induction false} NoSuchKey(params: ParamRecord, key: string)
    requires forall i :: 0 <= i < |params| ==> params[i].0 != key
    ensures !HasKey(DefinedParams(params), key)
  {
    if params != [] {
      NoSuchKey(params[1..], key);
      var rest := DefinedParams(params[1..]);
      if params[0].1.Some? {
        assert DefinedParams(params) == [Param(params[0].0, params[0].1.value)] + rest;
        assert forall i :: 1 <= i < |DefinedParams(params)| ==> DefinedParams(params)[i] == rest[i - 1];
      }
    }
  }

  /** `buildUrl`: the base URL followed by the endpoint, with one `set` per
      defined entry, in the record's order. */
  method BuildUrl(endpoint: string, params: ParamRecord) returns (url: Url)
    requires DistinctKeys(params)
    ensures url.base == BaseUrl + endpoint
    ensures url.query == DefinedParams(params)
    ensures forall key :: Get(url.query, key) == LookupParam(params, key)
  {
    url := Url(BaseUrl + endpoint, []);
    for i := 0 to |params|
      invariant url.base == BaseUrl + endpoint
      invariant url.query == DefinedParams(params[..i])
    {
      var (key, value) := params[i];
      assert params[..i + 1] == params[..i] + [(key, value)];
      DefinedParamsSnoc(params[..i], key, value);
      if value.Some? {
        forall j | 0 <= j < |params[..i]| ensures params[..i][j].0 != key {
          assert params[..i][j] == params[j];
        }
        NoSuchKey(params[..i], key);
        url := Set(url, key, value.value);
      }
    }
    assert params[..|params|] == params;
    forall key ensures Get(url.query, key) == LookupParam(params, key) {
      GetDefinedParams(params, key);
    }
  }

  // ---------------------------------------------------------------------
  // makeRequest

  /** What `response.json()` produces: a value, or the error it rejects
      with (a syntax error, or an abort while reading). */
  datatype Body = Parsed(json: Json) | Unreadable(reason: ErrorValue)

  /** What `fetch` produces: a response, or the error it rejects with. */
  datatype FetchOutcome = Response(status: nat, body: Body) | Rejected(reason: ErrorValue)

  /** `response.ok`. */
  predicate IsOk(status: nat) {
    200 <= status <= 299
  }

  /** `(await response.json()).error` inside the quiet `try`: the string
      under `error` when the body is an object that has one; a body that
      does not parse, or is `null`, leaves the message undefined. */
  function ErrorField(body: Body): (m: Option<string>)
    ensures m.Some? <==> body.Parsed? && body.json.JObject? && "error" in body.json.fields
                         && body.json.fields["error"].JString?
    ensures m.Some? ==> body.json.fields["error"] == JString(m.value)
  {
    if body.Parsed? && body.json.JObject? && "error" in body.json.fields && body.json.fields["error"].JString? then
      Some(body.json.fields["error"].s)
    else None
  }

  /** The outer `catch` for an error that is not a `PolygonApiError`: an
      abort is rethrown unchanged, anything else becomes a network error. */
  function Caught(e: ErrorValue): (t: Thrown)
    ensures IsAbortError(e) ==> t == Foreign(e)
    ensures !IsAbortError(e) ==> t == Api(NetworkError(e))
  {
    if IsAbortError(e) then Foreign(e) else Api(NetworkError(e))
  }

  /** Everything `makeRequest` does after the request is sent. */
  function Route(outcome: FetchOutcome): (r: Result<Json, Thrown>)
    ensures r.Success? <==> outcome.Response? && IsOk(outcome.status) && outcome.body.Parsed?
    ensures r.Success? ==> r.value == outcome.body.json
    ensures outcome.Response? && !IsOk(outcome.status) ==>
              r == Failure(Api(FromResponse(outcome.status, ErrorField(outcome.body))))
    ensures outcome.Rejected? ==> r == Failure(Caught(outcome.reason))
    ensures outcome.Response? && IsOk(outcome.status) && outcome.body.Unreadable? ==>
              r == Failure(Caught(outcome.body.reason))
    ensures r.Failure? ==> r.error.Api? || (r.error.Foreign? && IsAbortError(r.error.value))
    ensures r.Failure? && r.error.Api? ==>
              (r.error.error.status.Some? <==> outcome.Response? && !IsOk(outcome.status))
  {
    match outcome
    case Rejected(e) => Failure(Caught(e))
    case Response(status, body) =>
      if !IsOk(status) then Failure(Api(FromResponse(status, ErrorField(body))))
      else
        match body
        case Parsed(j) => Success(j)
        case Unreadable(e) => Failure(Caught(e))
  }

  /** `makeRequest`: a missing or empty key fails before anything is sent;
      otherwise the key is set as the `apikey` parameter of a copy of the
      URL, that URL is fetched, and the outcome is routed. */
  method MakeRequest(url: Url, apiKey: Option<string>, fetch: string -> FetchOutcome)
    returns (sent: Option<string>, r: Result<Json, Thrown>)
    ensures apiKey.None? || apiKey.value == "" ==> sent == None && r == Failure(Api(MissingApiKey()))
    ensures apiKey.Some? && apiKey.value != "" ==>
              && sent == Some(ToString(Set(url, "apikey", apiKey.value)))
              && r == Route(fetch(sent.value))
  {
    if apiKey.None? || apiKey.value == "" {
      return None, Failure(Api(MissingApiKey()));
    }
    var requestUrl := Set(url, "apikey", apiKey.value);
    var target := ToString(requestUrl);
    sent := Some(target);
    var outcome := fetch(target);
    if outcome.Rejected? {
      r := Failure(Caught(outcome.reason));
    } else if !IsOk(outcome.status) {
      var errorMessage: Option<string> := None;
      errorMessage := ErrorField(outcome.body);
      r := Failure(Api(FromResponse(outcome.status, errorMessage)));
    } else if outcome.body.Unreadable? {
      r := Failure(Caught(outcome.body.reason));
    } else {
      r := Success(outcome.body.json);
    }
  }

  /** The URL that is sent reads back with the key under `apikey` and every
      other parameter as it was. */
  lemma SentUrlCarriesKey(url: Url, key: string)
    requires WellFormed(url) && ParamWellFormed(Param("apikey", key))
    ensures Parse(ToString(Set(url, "apikey", key))).Some?
    ensures Get(Parse(ToString(Set(url, "apikey", key))).value.query, "apikey") == Some(key)
    ensures forall k :: k != "apikey" ==>
              Get(Parse(ToString(Set(url, "apikey", key))).value.query, k) == Get(url.query, k)
  {
    var s := Set(url, "apikey", key);
    SetParamMembers(url.query, "apikey", key);
    forall i | 0 <= i < |s.query| ensures ParamWellFormed(s.query[i]) {
      assert s.query[i] in s.query;
    }
    ParseToString(s);
  }
}
