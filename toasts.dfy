/** The choice of toast for a failed load: a rate-limit warning when either
    the error's message or the caller's message mentions a rate limit,
    otherwise a dismissible error carrying the caller's message. */
module Toasts {
  import opened JsValues
  import opened JsStrings
  import opened Errors

  datatype ToastVariant = Warning | Destructive

  /** The action button of a toast. */
  datatype ToastAction = ToastAction(altText: string, text: string)

  datatype ToastConfig = ToastConfig(
    variant: ToastVariant,
    title: string,
    description: string,
    duration: nat,
    action: Option<ToastAction>)

  const RateLimitNeedle: string := "rate limit"
  const RateLimitTitle: string := "Rate limit reached"
  const RateLimitDescription: string := "Please wait before loading more stocks. Try again in 15 seconds."

  /** `s.toLowerCase().includes("rate limit")`. */
  predicate MentionsRateLimit(s: string) {
    Contains(ToLowerAscii(s), RateLimitNeedle)
  }

  /** The classification; `error` is the message of the error passed in,
      when there is one. */
  predicate IsRateLimit(message: string, error: Option<string>) {
    (error.Some? && MentionsRateLimit(error.value)) || MentionsRateLimit(message)
  }

  /** `showErrorToast`: the configuration handed to `toast`. */
  function ShowErrorToast(message: string, error: Option<string>): (t: ToastConfig)
    ensures IsRateLimit(message, error) ==>
              t == ToastConfig(Warning, RateLimitTitle, RateLimitDescription, 15000, None)
    ensures !IsRateLimit(message, error) ==>
              t == ToastConfig(Destructive, "Error", message, 10000, Some(ToastAction("Dismiss", "Dismiss")))
  {
    if IsRateLimit(message, error) then
      ToastConfig(Warning, RateLimitTitle, RateLimitDescription, 15000, None)
    else
      ToastConfig(Destructive, "Error", message, 10000, Some(ToastAction("Dismiss", "Dismiss")))
  }

  /** Without an error only the caller's message is inspected. */
  lemma NoErrorInspectsMessage(message: string)
    ensures ShowErrorToast(message, None).variant == Warning <==> MentionsRateLimit(message)
  {
  }

  /** A warning is chosen whenever the error's message mentions a rate
      limit, whatever the caller's message. */
  lemma ErrorMessageDecides(message: string, error: string)
    requires MentionsRateLimit(error)
    ensures ShowErrorToast(message, Some(error)).variant == Warning
  {
  }

  /** A message that starts with a rate-limit mention, in any case,
      mentions it. */
  lemma MentionsPrefix(a: string, b: string)
    requires ToLowerAscii(a) == RateLimitNeedle
    ensures MentionsRateLimit(a + b)
  {
    var lower := ToLowerAscii(a + b);
    assert lower[..|a|] == ToLowerAscii(a);
    assert OccursAt(lower, RateLimitNeedle, 0);
  }

  /** The lower case of the fixed prefix is the needle. */
  lemma LowerRateLimitHead()
    ensures ToLowerAscii("Rate limit") == RateLimitNeedle
  {
    var head := "Rate limit";
    assert LowerAscii(head[0]) == 'r';
    forall k | 1 <= k < |head| ensures LowerAscii(head[k]) == head[k] {
    }
  }

  /** The rate-limit message starts with "Rate limit". */
  lemma RateLimitMessageMentions()
    ensures MentionsRateLimit(RateLimitMessage)
  {
    var head, rest := "Rate limit", " exceeded. Please try again later.";
    RateLimitMessageSplit();
    LowerRateLimitHead();
    MentionsPrefix(head, rest);
  }

  lemma RateLimitMessageSplit()
    ensures RateLimitMessage == "Rate limit" + " exceeded. Please try again later."
  {
  }

  /** The message of a 429 error mentions a rate limit, so a failed load
      caused by one shows the warning. */
  lemma RateLimitErrorWarns(message: string, body: Option<string>)
    ensures ShowErrorToast(message, Some(FromResponse(429, body).message)).variant == Warning
  {
    RateLimitMessageMentions();
    ErrorMessageDecides(message, FromResponse(429, body).message);
  }
}
