/** `PolygonApiError` as a tagged value (message, optional HTTP status,
    optional code) and its factory functions, plus everything else the
    ticker pipeline can throw. */
module Errors {
  import opened JsValues
  import opened JsStrings

  datatype ErrorCode = RateLimit | Unauthorized | Forbidden {
    /** The string stored in `code`. */
    function Name(): string {
      match this
      case RateLimit => "RATE_LIMIT"
      case Unauthorized => "UNAUTHORIZED"
      case Forbidden => "FORBIDDEN"
    }
  }

  datatype PolygonApiError = PolygonApiError(message: string, status: Option<nat>, code: Option<ErrorCode>)

  /** What the pipeline throws: one of its own errors, a foreign error that
      is propagated unchanged (an abort), or the validation error the
      request schema raises, naming the fields it rejected. */
  datatype Thrown =
    | Api(error: PolygonApiError)
    | Foreign(value: ErrorValue)
    | Validation(fields: seq<string>)

  const RateLimitMessage: string := "Rate limit exceeded. Please try again later."
  const UnauthorizedMessage: string := "Invalid API key"
  const ForbiddenMessage: string := "Access forbidden. Check your API key permissions."
  const MissingApiKeyMessage: string :=
    "Polygon API key is not configured. Set VITE_POLYGON_API_KEY in your environment."

  /** The message used for a failed status when the body gave none. */
  function StatusFailedMessage(status: nat): string {
    "API request failed: " + NatToString(status)
  }

  /** `PolygonApiError.fromResponse`: 429, 401 and 403 have fixed messages
      and codes whatever the body said; any other status keeps the body's
      message when there is one (even an empty one) and has no code. */
  function FromResponse(status: nat, errorMessage: Option<string>): (e: PolygonApiError)
    ensures e.status == Some(status)
    ensures e.code == Some(RateLimit) <==> status == 429
    ensures e.code == Some(Unauthorized) <==> status == 401
    ensures e.code == Some(Forbidden) <==> status == 403
    ensures status == 429 ==> e.message == RateLimitMessage
    ensures status == 401 ==> e.message == UnauthorizedMessage
    ensures status == 403 ==> e.message == ForbiddenMessage
    ensures status != 429 && status != 401 && status != 403 ==>
              e.code == None && e.message == errorMessage.GetOr(StatusFailedMessage(status))
  {
    if status == 429 then PolygonApiError(RateLimitMessage, Some(429), Some(RateLimit))
    else if status == 401 then PolygonApiError(UnauthorizedMessage, Some(401), Some(Unauthorized))
    else if status == 403 then PolygonApiError(ForbiddenMessage, Some(403), Some(Forbidden))
    else PolygonApiError(errorMessage.GetOr(StatusFailedMessage(status)), Some(status), None)
  }

  /** The body's message only matters for the statuses without a fixed one. */
  lemma FromResponseIgnoresMessage(status: nat, m1: Option<string>, m2: Option<string>)
    ensures FromResponse(status, m1) == FromResponse(status, m2)
            <==> status == 429 || status == 401 || status == 403 || m1.GetOr(StatusFailedMessage(status)) == m2.GetOr(StatusFailedMessage(status))
  {
  }

  /** The default message for a status is the fixed text followed by the
      status in decimal, so it tells the statuses apart. */
  lemma StatusFailedMessageInjective(s1: nat, s2: nat)
    ensures StatusFailedMessage(s1) == StatusFailedMessage(s2) <==> s1 == s2
  {
    var p := "API request failed: ";
    if StatusFailedMessage(s1) == StatusFailedMessage(s2) {
      assert NatToString(s1) == StatusFailedMessage(s1)[|p|..];
      assert NatToString(s2) == StatusFailedMessage(s2)[|p|..];
    }
  }

  /** `PolygonApiError.networkError`: the underlying message after a fixed
      prefix, or "Unknown error" when what was thrown is not an `Error`. */
  function NetworkError(error: ErrorValue): (e: PolygonApiError)
    ensures e.status == None && e.code == None
    ensures e.message == "Network error: " + (if error.ErrorObject? then error.message else "Unknown error")
  {
    PolygonApiError("Network error: " + (match error
                                          case ErrorObject(_, message) => message
                                          case NonErrorValue => "Unknown error"), None, None)
  }

  /** `PolygonApiError.missingApiKey`. */
  function MissingApiKey(): (e: PolygonApiError)
    ensures e == PolygonApiError(MissingApiKeyMessage, None, None)
  {
    PolygonApiError(MissingApiKeyMessage, None, None)
  }

  /** `PolygonApiError.invalidResponse`. */
  function InvalidResponse(message: string): (e: PolygonApiError)
    ensures e.status == None && e.code == None
    ensures e.message == "Unexpected response from Polygon: " + message
  {
    PolygonApiError("Unexpected response from Polygon: " + message, None, None)
  }
}
