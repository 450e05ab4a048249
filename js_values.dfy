/** JavaScript values as the pipeline sees them: `undefined`-able values,
    `null`-able schema fields, decoded JSON bodies and the values a `catch`
    clause can receive. */
module JsValues {

  /** `T | undefined`. */
  datatype Option<+T> = None | Some(value: T) {
    function GetOr(default: T): T {
      if Some? then value else default
    }
  }

  /** The outcome of a call that either returns or throws. */
  datatype Result<+R, +E> = Success(value: R) | Failure(error: E)

  /** A schema field that may be missing, `null`, or present: the readings
      of `z.*().optional().nullable()`. */
  datatype Field<+T> = Absent | Null | Present(value: T) {
    /** `field ?? undefined`: both `null` and `undefined` become absent. */
    function ToOption(): (r: Option<T>)
      ensures r.Some? <==> Present?
      ensures r.Some? ==> r.value == value
    {
      if Present? then Some(value) else None
    }
  }

  /** A value produced by `JSON.parse` (numbers as exact reals). */
  datatype Json =
    | JNull
    | JBool(b: bool)
    | JNumber(n: real)
    | JString(s: string)
    | JArray(items: seq<Json>)
    | JObject(fields: map<string, Json>)

  /** A value caught by a `catch` clause: an `Error` (or `DOMException`)
      with its `name` and `message`, or anything else that was thrown. */
  datatype ErrorValue = ErrorObject(name: string, message: string) | NonErrorValue

  /** The error a `fetch` rejects with when its signal is aborted. */
  const AbortErrorName: string := "AbortError"

  predicate IsAbortError(e: ErrorValue) {
    e.ErrorObject? && e.name == AbortErrorName
  }
}
