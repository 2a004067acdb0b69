/**
 * The small helpers of src/utils/translationHelpers.ts:
 * `isTranslationNeeded`, `createTranslationCacheKey` and
 * `formatTranslationError`.
 */
module Helpers {
  import opened Common
  import opened Text
  import opened LibreTranslate

  /** `isTranslationNeeded`: the languages differ. */
  predicate IsTranslationNeeded(sourceLang: string, targetLang: string) {
    sourceLang != targetLang
  }

  /** Where no translation is needed, the service hands every text back unchanged and changes nothing. */
  lemma {:induction false} NotNeededShortCircuits(s: ServiceState, text: string, sourceLang: string, targetLang: string, now: int)
    requires !IsTranslationNeeded(sourceLang, targetLang)
    ensures BeginStep(s, text, sourceLang, targetLang, now) == Began(Immediate(text), s)
  {
  }

  /** `createTranslationCacheKey(text, sourceLang, targetLang)`: `${sourceLang}:${targetLang}:${text}`. */
  function CreateTranslationCacheKey(text: string, sourceLang: string, targetLang: string): (key: string)
    ensures key == CacheKey(text, sourceLang, targetLang)
  {
    sourceLang + ":" + targetLang + ":" + text
  }

  /** With colon-free language codes, different requests get different keys. */
  lemma {:induction false} CreateTranslationCacheKeyInjective(t1: string, s1: string, g1: string, t2: string, s2: string, g2: string)
    requires ':' !in s1 && ':' !in g1 && ':' !in s2 && ':' !in g2
    requires (t1, s1, g1) != (t2, s2, g2)
    ensures CreateTranslationCacheKey(t1, s1, g1) != CreateTranslationCacheKey(t2, s2, g2)
  {
    if CreateTranslationCacheKey(t1, s1, g1) == CreateTranslationCacheKey(t2, s2, g2) {
      CacheKeyInjective(t1, s1, g1, t2, s2, g2);
    }
  }

  /** What `formatTranslationError` reads of an error: `error?.response?.status` and `error?.message`. */
  datatype ErrorInfo = ErrorInfo(status: Option<int>, message: Option<string>)

  const RateLimitMessage: string := "Translation rate limit exceeded. Please try again later."
  const UnavailableMessage: string := "Translation service temporarily unavailable."
  const NetworkMessage: string := "Network error. Please check your connection."
  const FallbackMessage: string := "Translation failed. Using original text."

  /** `formatTranslationError`: status 429, then status 503, then a message mentioning `network`, then the fallback. */
  function FormatTranslationError(e: ErrorInfo): (r: string)
    ensures e.status == Some(429) <==> r == RateLimitMessage
    ensures e.status == Some(503) <==> r == UnavailableMessage
    ensures r == NetworkMessage <==>
              e.status != Some(429) && e.status != Some(503) && e.message.Some? && Contains(e.message.value, "network")
    ensures r == FallbackMessage <==>
              e.status != Some(429) && e.status != Some(503) && !(e.message.Some? && Contains(e.message.value, "network"))
  {
    if e.status == Some(429) then RateLimitMessage
    else if e.status == Some(503) then UnavailableMessage
    else if e.message.Some? && Contains(e.message.value, "network") then NetworkMessage
    else FallbackMessage
  }

  /** `${response.status}` for an integer status. */
  function StatusText(status: int): string {
    if status >= 0 then NatToString(status) else "-" + NatToString(-status)
  }

  /** A rendered status is an optional `-` followed by digits. */
  lemma {:induction false} StatusTextDigits(status: int)
    ensures forall i :: 0 <= i < |StatusText(status)| ==> StatusText(status)[i] == '-' || IsDigit(StatusText(status)[i])
  {
    NatToStringDigits(if status >= 0 then status else -status);
  }

  /**
   * The error `performTranslation` throws for a non-2xx status:
   * `new Error(`Translation API error: ${response.status}`)`, which has a
   * message and no `response`.
   */
  function HttpErrorInfo(status: int): ErrorInfo {
    ErrorInfo(None, Some("Translation API error: " + StatusText(status)))
  }

  /**
   * The service's own HTTP errors are always formatted with the generic
   * message: they carry no `response`, so even a 429 or a 503 never reaches
   * the rate-limit or unavailability message.
   */
  lemma {:induction false} HttpErrorsFormatAsFallback(status: int)
    ensures FormatTranslationError(HttpErrorInfo(status)) == FallbackMessage
  {
    var msg := "Translation API error: " + StatusText(status);
    StatusTextDigits(status);
    assert 'w' !in "Translation API error: ";
    assert 'w' !in msg;
    if Contains(msg, "network") {
      assert "network"[3] == 'w';
      ContainsHasChar(msg, "network", 'w');
    }
  }
}
