/**
 * The translation service of src/hooks/useLibreTranslate.ts: a cache of past
 * translations with lazy 24-hour expiry and a map of in-flight requests that
 * lets identical concurrent requests share one network call.
 *
 * The asynchronous `translateText` is split at its only suspension point:
 * `Begin` runs the synchronous part (short-circuits, cache lookup, pending
 * lookup, registration of a new request) and `Complete` runs what happens
 * when the network answers (cache write, fallback, removal of the pending
 * key). The network's answer is an oracle `Response`; the clock is `now`.
 */
module LibreTranslate {
  import opened Common
  import opened Text

  /** `CACHE_EXPIRY`: 24 hours in milliseconds. */
  const CacheExpiry: int := 24 * 60 * 60 * 1000

  datatype CacheEntry = CacheEntry(text: string, timestamp: int)

  /** Source text, then target language, then the stored translation. */
  type Cache = map<string, map<string, CacheEntry>>

  /** The parameters of one network request. */
  datatype Request = Request(text: string, sourceLang: string, targetLang: string)

  /** Why a request failed. */
  datatype TranslationError = HttpError(status: int) | NetworkFailure | MalformedResponse

  /** How a promise settles. */
  datatype Settled<T> = Fulfilled(value: T) | Rejected(reason: TranslationError)

  /** What the endpoint answered: a status and a body, or nothing at all. */
  datatype Response = Reply(status: int, body: Body) | NoReply
  datatype Body = Parsed(translatedText: Option<string>) | Unparsable

  /** `getCacheKey`: `${sourceLang}:${targetLang}:${text}`. */
  function CacheKey(text: string, sourceLang: string, targetLang: string): string {
    sourceLang + ":" + targetLang + ":" + text
  }

  function KeyOf(r: Request): string {
    CacheKey(r.text, r.sourceLang, r.targetLang)
  }

  /** With colon-free language codes, the pending key determines the request. */
  lemma {:induction false} CacheKeyInjective(t1: string, s1: string, g1: string, t2: string, s2: string, g2: string)
    requires ':' !in s1 && ':' !in g1 && ':' !in s2 && ':' !in g2
    requires CacheKey(t1, s1, g1) == CacheKey(t2, s2, g2)
    ensures t1 == t2 && s1 == s2 && g1 == g2
  {
    assert CacheKey(t1, s1, g1) == s1 + [':'] + (g1 + [':'] + t1);
    assert CacheKey(t2, s2, g2) == s2 + [':'] + (g2 + [':'] + t2);
    ColonSeparates(s1, g1 + [':'] + t1, s2, g2 + [':'] + t2);
    ColonSeparates(g1, t1, g2, t2);
  }

  /** The position of the first colon. */
  function FirstColon(w: string): nat
    requires ':' in w
    decreases |w|
  {
    if w[0] == ':' then 0 else 1 + FirstColon(w[1..])
  }

  lemma {:induction false} FirstColonAfter(a: string, x: string)
    requires ':' !in a
    ensures FirstColon(a + [':'] + x) == |a|
    decreases |a|
  {
    if a != [] {
      assert (a + [':'] + x)[1..] == a[1..] + [':'] + x;
      FirstColonAfter(a[1..], x);
    }
  }

  /** A colon-free head followed by a colon is recovered from the whole string. */
  lemma {:induction false} ColonSeparates(a: string, x: string, b: string, y: string)
    requires ':' !in a && ':' !in b
    requires a + [':'] + x == b + [':'] + y
    ensures a == b && x == y
  {
    var w := a + [':'] + x;
    FirstColonAfter(a, x);
    FirstColonAfter(b, y);
    assert a == w[..|a|] == b;
    assert x == w[|a| + 1..] == y;
  }

  /** `isValidCachedTranslation`: younger than 24 hours (lazy expiry, nothing is evicted). */
  predicate IsValidCached(e: CacheEntry, now: int) {
    now - e.timestamp < CacheExpiry
  }

  /** `this.cache[text]?.[targetLang]` when it is still valid: keyed by text and target only. */
  function CachedTranslation(cache: Cache, text: string, targetLang: string, now: int): (r: Option<string>)
    ensures r.Some? <==> text in cache && targetLang in cache[text] && IsValidCached(cache[text][targetLang], now)
    ensures r.Some? ==> r.value == cache[text][targetLang].text
  {
    if text in cache && targetLang in cache[text] && IsValidCached(cache[text][targetLang], now)
    then Some(cache[text][targetLang].text)
    else None
  }

  /** `!text || !text.trim() || sourceLang === targetLang`: nothing to translate. */
  predicate ShortCircuits(text: string, sourceLang: string, targetLang: string) {
    IsBlank(text) || sourceLang == targetLang
  }

  /**
   * `performTranslation`'s handling of the answer: a non-2xx status is an
   * `HttpError`, an unreadable body a failure, and an answer without a
   * (non-empty) `translatedText` falls back to the original text.
   */
  function PerformTranslation(text: string, response: Response): (r: Settled<string>)
    ensures response.NoReply? ==> r == Rejected(NetworkFailure)
    ensures response.Reply? && !(200 <= response.status <= 299) ==> r == Rejected(HttpError(response.status))
    ensures r.Fulfilled? <==> response.Reply? && 200 <= response.status <= 299 && response.body.Parsed?
    ensures r.Fulfilled? && response.body.translatedText.Some? && response.body.translatedText.value != ""
            ==> r.value == response.body.translatedText.value
    ensures r.Fulfilled? && (response.body.translatedText.None? || response.body.translatedText.value == "")
            ==> r.value == text
  {
    match response
    case NoReply => Rejected(NetworkFailure)
    case Reply(status, body) =>
      if !(200 <= status <= 299) then Rejected(HttpError(status))
      else match body
        case Unparsable => Rejected(MalformedResponse)
        case Parsed(t) => Fulfilled(if t.Some? && t.value != "" then t.value else text)
  }

  /** What the originating `translateText` call returns: the translation, or the original text on any failure. */
  function OriginResult(text: string, outcome: Settled<string>): string {
    if outcome.Fulfilled? then outcome.value else text
  }

  // ---------------------------------------------------------------------
  // The service state machine
  // ---------------------------------------------------------------------

  datatype ServiceState = ServiceState(cache: Cache, pending: map<string, Request>)

  /** What the synchronous part of `translateText` decided. */
  datatype Lookup =
    | Immediate(text: string)      // short-circuit or cache hit: resolves to `text`
    | Joined(inFlight: Request)    // an identical request is pending: share its promise
    | Started(request: Request)    // a new network request was registered

  datatype Began = Began(lookup: Lookup, state: ServiceState)
  datatype Completed = Completed(result: string, state: ServiceState)

  /** Every pending key is the key of the request it holds. */
  predicate PendingKeyed(pending: map<string, Request>) {
    forall k :: k in pending ==> k == KeyOf(pending[k])
  }

  /** The synchronous part of `translateText`, up to its first `await`. */
  function BeginStep(s: ServiceState, text: string, sourceLang: string, targetLang: string, now: int): (r: Began)
    ensures r.state.cache == s.cache
    ensures ShortCircuits(text, sourceLang, targetLang) ==> r == Began(Immediate(text), s)
    ensures r.lookup.Joined? ==> r.state == s && CacheKey(text, sourceLang, targetLang) in s.pending
    ensures r.lookup.Started? <==>
              !ShortCircuits(text, sourceLang, targetLang)
              && CachedTranslation(s.cache, text, targetLang, now).None?
              && CacheKey(text, sourceLang, targetLang) !in s.pending
    ensures r.lookup.Started? ==>
              r.lookup.request == Request(text, sourceLang, targetLang)
              && r.state.pending == s.pending[CacheKey(text, sourceLang, targetLang) := r.lookup.request]
    ensures !r.lookup.Started? ==> r.state == s
  {
    var key := CacheKey(text, sourceLang, targetLang);
    if ShortCircuits(text, sourceLang, targetLang) then Began(Immediate(text), s)
    else match CachedTranslation(s.cache, text, targetLang, now)
      case Some(t) => Began(Immediate(t), s)
      case None =>
        if key in s.pending then Began(Joined(s.pending[key]), s)
        else
          var request := Request(text, sourceLang, targetLang);
          Began(Started(request), ServiceState(s.cache, s.pending[key := request]))
  }

  /** The cache with `entry` stored for (`text`, `targetLang`), other entries untouched. */
  function Store(cache: Cache, text: string, targetLang: string, entry: CacheEntry): (r: Cache)
    ensures r.Keys == cache.Keys + {text}
    ensures targetLang in r[text] && r[text][targetLang] == entry
    ensures text in cache ==> r[text].Keys == cache[text].Keys + {targetLang}
    ensures forall g :: g in r[text] && g != targetLang ==> text in cache && g in cache[text] && r[text][g] == cache[text][g]
    ensures forall t :: t in cache && t != text ==> r[t] == cache[t]
  {
    var inner := if text in cache then cache[text] else map[];
    cache[text := inner[targetLang := entry]]
  }

  /** What happens when the network answers the originating request: cache on success, then drop the pending key. */
  function CompleteStep(s: ServiceState, request: Request, response: Response, now: int): (r: Completed)
    ensures r.state.pending == s.pending - {KeyOf(request)}
    ensures r.result == OriginResult(request.text, PerformTranslation(request.text, response))
    ensures PerformTranslation(request.text, response).Rejected? ==> r.state.cache == s.cache && r.result == request.text
    ensures PerformTranslation(request.text, response).Fulfilled? ==>
              r.state.cache == Store(s.cache, request.text, request.targetLang, CacheEntry(r.result, now))
  {
    var outcome := PerformTranslation(request.text, response);
    var cache := if outcome.Fulfilled?
      then Store(s.cache, request.text, request.targetLang, CacheEntry(outcome.value, now))
      else s.cache;
    Completed(OriginResult(request.text, outcome), ServiceState(cache, s.pending - {KeyOf(request)}))
  }

  /** `clearCache`: both maps emptied. */
  function ClearStep(s: ServiceState): (r: ServiceState)
    ensures r.cache == map[] && r.pending == map[]
  {
    ServiceState(map[], map[])
  }

  /** How a caller's `translateText` promise settles, given the network's answer for each pending key. */
  function Settle(l: Lookup, responseOf: string -> Response): (r: Settled<string>)
    ensures l.Immediate? ==> r == Fulfilled(l.text)
    ensures l.Started? ==> r.Fulfilled?
    ensures l.Joined? ==> r == PerformTranslation(l.inFlight.text, responseOf(KeyOf(l.inFlight)))
  {
    match l
    case Immediate(t) => Fulfilled(t)
    case Started(req) => Fulfilled(OriginResult(req.text, PerformTranslation(req.text, responseOf(KeyOf(req)))))
    case Joined(req) => PerformTranslation(req.text, responseOf(KeyOf(req)))
  }

  /** The originating caller receives exactly what `CompleteStep` returns. */
  lemma {:induction false} StartedSettlesAsCompleted(s: ServiceState, request: Request, responseOf: string -> Response, now: int)
    ensures Settle(Started(request), responseOf)
            == Fulfilled(CompleteStep(s, request, responseOf(KeyOf(request)), now).result)
  {
  }

  // ---------------------------------------------------------------------
  // translateBatch
  // ---------------------------------------------------------------------

  datatype BatchBegun = BatchBegun(lookups: seq<Lookup>, state: ServiceState)

  /** `texts.map(text => this.translateText(...))`: the synchronous parts run in list order. */
  function BeginAll(s: ServiceState, texts: seq<string>, sourceLang: string, targetLang: string, now: int): (r: BatchBegun)
    ensures |r.lookups| == |texts|
    ensures r.state.cache == s.cache
    decreases |texts|
  {
    if texts == [] then BatchBegun([], s)
    else
      var first := BeginStep(s, texts[0], sourceLang, targetLang, now);
      var rest := BeginAll(first.state, texts[1..], sourceLang, targetLang, now);
      BatchBegun([first.lookup] + rest.lookups, rest.state)
  }

  /**
   * `Promise.all`: fulfilled with every element's value, in input order, when
   * every element fulfils; otherwise rejected with the reason of a rejecting
   * element. Which one is a matter of timing in JavaScript; the contract
   * promises only that it is one of them.
   */
  function SettleAll(lookups: seq<Lookup>, responseOf: string -> Response): (r: Settled<seq<string>>)
    ensures r.Fulfilled? <==> forall i :: 0 <= i < |lookups| ==> Settle(lookups[i], responseOf).Fulfilled?
    ensures r.Fulfilled? ==> |r.value| == |lookups|
    ensures r.Fulfilled? ==> forall i :: 0 <= i < |lookups| ==> Settle(lookups[i], responseOf) == Fulfilled(r.value[i])
    ensures r.Rejected? ==> exists i :: 0 <= i < |lookups| && Settle(lookups[i], responseOf) == Rejected(r.reason)
    decreases |lookups|
  {
    if lookups == [] then Fulfilled([])
    else match Settle(lookups[0], responseOf)
      case Rejected(e) => Rejected(e)
      case Fulfilled(v) =>
        match SettleAll(lookups[1..], responseOf)
        case Rejected(e) => Rejected(e)
        case Fulfilled(vs) => Fulfilled([v] + vs)
  }

  /** `translateBatch` as seen by its caller: same length, element `i` is `translateText(texts[i])`. */
  function TranslateBatch(s: ServiceState, texts: seq<string>, sourceLang: string, targetLang: string,
                          now: int, responseOf: string -> Response): (r: Settled<seq<string>>)
    ensures r.Fulfilled? ==> |r.value| == |texts|
  {
    SettleAll(BeginAll(s, texts, sourceLang, targetLang, now).lookups, responseOf)
  }

  /**
   * Within one batch a text is requested once: a later occurrence of a text
   * whose request the batch started joins that request, and no two started
   * requests share a key.
   */
  lemma {:induction false} BatchStartsOncePerKey(s: ServiceState, texts: seq<string>, sourceLang: string, targetLang: string, now: int)
    ensures var ls := BeginAll(s, texts, sourceLang, targetLang, now).lookups;
            forall i, j :: 0 <= i < j < |texts| && ls[i].Started? && texts[j] == texts[i] ==>
              ls[j] == Joined(ls[i].request)
    ensures var ls := BeginAll(s, texts, sourceLang, targetLang, now).lookups;
            forall i, j :: 0 <= i < j < |texts| && ls[i].Started? && ls[j].Started? ==>
              KeyOf(ls[i].request) != KeyOf(ls[j].request)
    decreases |texts|
  {
    if texts != [] {
      var first := BeginStep(s, texts[0], sourceLang, targetLang, now);
      var rest := BeginAll(first.state, texts[1..], sourceLang, targetLang, now);
      var ls := BeginAll(s, texts, sourceLang, targetLang, now).lookups;
      assert ls == [first.lookup] + rest.lookups;
      BatchStartsOncePerKey(first.state, texts[1..], sourceLang, targetLang, now);
      if first.lookup.Started? {
        var req := first.lookup.request;
        PendingKeptThroughBatch(first.state, texts[1..], sourceLang, targetLang, now, KeyOf(req));
        forall j | 0 < j < |texts| && texts[j] == texts[0] ensures ls[j] == Joined(req) {
          JoinedWhilePending(first.state, texts[1..], sourceLang, targetLang, now, j - 1, req);
        }
        forall j | 0 < j < |texts| && ls[j].Started? ensures KeyOf(req) != KeyOf(ls[j].request) {
          StartedKeyWasFree(first.state, texts[1..], sourceLang, targetLang, now, j - 1);
        }
      }
    }
  }

  /** Keys pending when a batch begins are still pending at every later point of it. */
  lemma {:induction false} PendingKeptThroughBatch(s: ServiceState, texts: seq<string>, sourceLang: string, targetLang: string, now: int, key: string)
    requires key in s.pending
    ensures key in BeginAll(s, texts, sourceLang, targetLang, now).state.pending
    ensures BeginAll(s, texts, sourceLang, targetLang, now).state.pending[key] == s.pending[key]
    decreases |texts|
  {
    if texts != [] {
      var first := BeginStep(s, texts[0], sourceLang, targetLang, now);
      PendingKeptThroughBatch(first.state, texts[1..], sourceLang, targetLang, now, key);
    }
  }

  /** The state a batch has reached before element `j`. */
  function StateBefore(s: ServiceState, texts: seq<string>, sourceLang: string, targetLang: string, now: int, j: nat): ServiceState
    requires j <= |texts|
    decreases j
  {
    if j == 0 then s
    else StateBefore(BeginStep(s, texts[0], sourceLang, targetLang, now).state, texts[1..], sourceLang, targetLang, now, j - 1)
  }

  /** Element `j` of a batch is decided by `BeginStep` in the state reached before it. */
  lemma {:induction false} LookupAt(s: ServiceState, texts: seq<string>, sourceLang: string, targetLang: string, now: int, j: nat)
    requires j < |texts|
    ensures BeginAll(s, texts, sourceLang, targetLang, now).lookups[j]
            == BeginStep(StateBefore(s, texts, sourceLang, targetLang, now, j), texts[j], sourceLang, targetLang, now).lookup
    ensures StateBefore(s, texts, sourceLang, targetLang, now, j).cache == s.cache
    decreases j
  {
    if j > 0 {
      var first := BeginStep(s, texts[0], sourceLang, targetLang, now);
      LookupAt(first.state, texts[1..], sourceLang, targetLang, now, j - 1);
    }
  }

  /** Pending keys are never dropped while a batch begins. */
  lemma {:induction false} PendingKeptBefore(s: ServiceState, texts: seq<string>, sourceLang: string, targetLang: string, now: int, j: nat, key: string)
    requires j <= |texts| && key in s.pending
    ensures key in StateBefore(s, texts, sourceLang, targetLang, now, j).pending
    ensures StateBefore(s, texts, sourceLang, targetLang, now, j).pending[key] == s.pending[key]
    decreases j
  {
    if j > 0 {
      PendingKeptBefore(BeginStep(s, texts[0], sourceLang, targetLang, now).state, texts[1..], sourceLang, targetLang, now, j - 1, key);
    }
  }

  /** A text whose request is pending when the batch begins joins that request. */
  lemma {:induction false} JoinedWhilePending(s: ServiceState, texts: seq<string>, sourceLang: string, targetLang: string, now: int, j: nat, req: Request)
    requires j < |texts| && req == Request(texts[j], sourceLang, targetLang)
    requires KeyOf(req) in s.pending && s.pending[KeyOf(req)] == req
    requires !ShortCircuits(texts[j], sourceLang, targetLang)
    requires CachedTranslation(s.cache, texts[j], targetLang, now).None?
    ensures BeginAll(s, texts, sourceLang, targetLang, now).lookups[j] == Joined(req)
  {
    LookupAt(s, texts, sourceLang, targetLang, now, j);
    PendingKeptBefore(s, texts, sourceLang, targetLang, now, j, KeyOf(req));
  }

  /** A request started inside a batch had a key that was not pending when the batch began. */
  lemma {:induction false} StartedKeyWasFree(s: ServiceState, texts: seq<string>, sourceLang: string, targetLang: string, now: int, j: nat)
    requires j < |texts| && BeginAll(s, texts, sourceLang, targetLang, now).lookups[j].Started?
    ensures KeyOf(BeginAll(s, texts, sourceLang, targetLang, now).lookups[j].request) !in s.pending
  {
    LookupAt(s, texts, sourceLang, targetLang, now, j);
    var key := KeyOf(BeginAll(s, texts, sourceLang, targetLang, now).lookups[j].request);
    if key in s.pending {
      PendingKeptBefore(s, texts, sourceLang, targetLang, now, j, key);
    }
  }

  /** Requests registered by a batch (or by single calls) keep the pending map keyed by request. */
  lemma {:induction false} BeginAllKeepsPendingKeyed(s: ServiceState, texts: seq<string>, sourceLang: string, targetLang: string, now: int)
    requires PendingKeyed(s.pending)
    ensures PendingKeyed(BeginAll(s, texts, sourceLang, targetLang, now).state.pending)
    decreases |texts|
  {
    if texts != [] {
      BeginAllKeepsPendingKeyed(BeginStep(s, texts[0], sourceLang, targetLang, now).state, texts[1..], sourceLang, targetLang, now);
    }
  }

  // ---------------------------------------------------------------------
  // Properties across calls
  // ---------------------------------------------------------------------

  /** A second identical call made while the first is in flight joins it instead of starting another request. */
  lemma {:induction false} SecondCallJoins(s: ServiceState, text: string, sourceLang: string, targetLang: string, now: int, later: int)
    requires BeginStep(s, text, sourceLang, targetLang, now).lookup.Started?
    requires now <= later
    ensures var first := BeginStep(s, text, sourceLang, targetLang, now);
            BeginStep(first.state, text, sourceLang, targetLang, later) == Began(Joined(first.lookup.request), first.state)
  {
  }

  /**
   * After a successful translation, a call for the same text and target
   * language within 24 hours is served from the cache, whatever its source
   * language: the cache ignores the source language.
   */
  lemma {:induction false} ServedFromCacheAfterSuccess(s: ServiceState, request: Request, response: Response, now: int,
                                    sourceLang: string, later: int)
    requires PerformTranslation(request.text, response).Fulfilled?
    requires !ShortCircuits(request.text, sourceLang, request.targetLang)
    requires later - now < CacheExpiry
    ensures var done := CompleteStep(s, request, response, now);
            BeginStep(done.state, request.text, sourceLang, request.targetLang, later) == Began(Immediate(done.result), done.state)
  {
  }

  /** An entry 24 hours old or older is not served, yet stays in the cache. */
  lemma {:induction false} ExpiredEntryNotServed(s: ServiceState, text: string, sourceLang: string, targetLang: string, now: int)
    requires text in s.cache && targetLang in s.cache[text]
    requires now - s.cache[text][targetLang].timestamp >= CacheExpiry
    requires !ShortCircuits(text, sourceLang, targetLang)
    ensures var r := BeginStep(s, text, sourceLang, targetLang, now);
            !r.lookup.Immediate? && r.state.cache == s.cache
  {
  }

  /** A failed request changes no cache entry and leaves no pending key; its caller gets the original text. */
  lemma {:induction false} FailureLeavesCache(s: ServiceState, request: Request, response: Response, now: int)
    requires PerformTranslation(request.text, response).Rejected?
    ensures CompleteStep(s, request, response, now) == Completed(request.text, ServiceState(s.cache, s.pending - {KeyOf(request)}))
  {
  }

  /** After `clearCache`, a call that does not short-circuit issues a fresh request. */
  lemma {:induction false} ClearForcesRefetch(s: ServiceState, text: string, sourceLang: string, targetLang: string, now: int)
    requires !ShortCircuits(text, sourceLang, targetLang)
    ensures BeginStep(ClearStep(s), text, sourceLang, targetLang, now).lookup == Started(Request(text, sourceLang, targetLang))
  {
  }

  /**
   * A request still in flight across `clearCache` removes, when it completes,
   * the pending entry of the newer identical request started after the clear:
   * the `finally` deletes by key.
   */
  lemma {:induction false} StaleCompletionDropsNewerPending(s: ServiceState, request: Request, response: Response, now: int)
    requires !ShortCircuits(request.text, request.sourceLang, request.targetLang)
    ensures var restarted := BeginStep(ClearStep(s), request.text, request.sourceLang, request.targetLang, now);
            restarted.lookup == Started(request) && KeyOf(request) in restarted.state.pending
            && KeyOf(request) !in CompleteStep(restarted.state, request, response, now).state.pending
  {
  }

  /** `getCacheSize` counts source texts: a translation into another language of a cached text does not grow it. */
  lemma {:induction false} CacheSizeCountsTexts(s: ServiceState, request: Request, response: Response, now: int)
    requires PerformTranslation(request.text, response).Fulfilled?
    ensures |CompleteStep(s, request, response, now).state.cache.Keys|
            == if request.text in s.cache then |s.cache.Keys| else |s.cache.Keys| + 1
  {
    var c := CompleteStep(s, request, response, now).state.cache;
    if request.text in s.cache {
      assert c.Keys == s.cache.Keys;
    } else {
      assert c.Keys == s.cache.Keys + {request.text};
    }
  }

  /**
   * A coalesced caller receives the shared promise as it is, so a batch that
   * contains a text twice rejects when that text's request fails, although a
   * single call for the text would return it unchanged.
   */
  lemma {:induction false} DuplicateTextRejectsBatch(s: ServiceState, text: string, sourceLang: string, targetLang: string,
                                  now: int, responseOf: string -> Response, status: int)
    requires !ShortCircuits(text, sourceLang, targetLang)
    requires CachedTranslation(s.cache, text, targetLang, now).None?
    requires CacheKey(text, sourceLang, targetLang) !in s.pending
    requires responseOf(CacheKey(text, sourceLang, targetLang)).Reply?
    requires responseOf(CacheKey(text, sourceLang, targetLang)).status == status && !(200 <= status <= 299)
    ensures TranslateBatch(s, [text, text], sourceLang, targetLang, now, responseOf) == Rejected(HttpError(status))
    ensures TranslateBatch(s, [text], sourceLang, targetLang, now, responseOf) == Fulfilled([text])
  {
    var req := Request(text, sourceLang, targetLang);
    var first := BeginStep(s, text, sourceLang, targetLang, now);
    assert first.lookup == Started(req);
    var second := BeginStep(first.state, text, sourceLang, targetLang, now);
    assert second.lookup == Joined(req);
    var one := BeginAll(first.state, [text], sourceLang, targetLang, now);
    assert [text][1..] == [];
    assert one.lookups == [Joined(req)];
    assert [text, text][1..] == [text];
    assert BeginAll(s, [text, text], sourceLang, targetLang, now).lookups == [Started(req), Joined(req)];
    assert [Started(req), Joined(req)][1..] == [Joined(req)];
    assert Settle(Joined(req), responseOf) == Rejected(HttpError(status));
    assert SettleAll([Joined(req)], responseOf) == Rejected(HttpError(status));
    assert BeginAll(s, [text], sourceLang, targetLang, now).lookups == [Started(req)];
    assert Settle(Started(req), responseOf) == Fulfilled(text);
    assert [Started(req)][1..] == [];
    assert SettleAll([Started(req)][1..], responseOf) == Fulfilled([]);
    assert [text] + [] == [text];
    assert SettleAll([Started(req)], responseOf) == Fulfilled([text]);
  }

  /**
   * Element `i` of a fulfilled batch is what a single `translateText` of
   * `texts[i]` settles to, begun in the state the batch has reached before it.
   */
  lemma {:induction false} TranslateBatchElement(s: ServiceState, texts: seq<string>, sourceLang: string, targetLang: string,
                                                 now: int, responseOf: string -> Response, i: nat)
    requires i < |texts|
    ensures var r := TranslateBatch(s, texts, sourceLang, targetLang, now, responseOf);
            r.Fulfilled? ==>
              Settle(BeginStep(StateBefore(s, texts, sourceLang, targetLang, now, i), texts[i], sourceLang, targetLang, now).lookup,
                     responseOf) == Fulfilled(r.value[i])
  {
    LookupAt(s, texts, sourceLang, targetLang, now, i);
  }

  /** A rejected batch rejects with the reason of one of its texts' single calls. */
  lemma {:induction false} TranslateBatchRejection(s: ServiceState, texts: seq<string>, sourceLang: string, targetLang: string,
                                                   now: int, responseOf: string -> Response)
    ensures var r := TranslateBatch(s, texts, sourceLang, targetLang, now, responseOf);
            r.Rejected? ==>
              exists i :: (0 <= i < |texts|
                && Settle(BeginStep(StateBefore(s, texts, sourceLang, targetLang, now, i), texts[i], sourceLang, targetLang, now).lookup,
                          responseOf) == Rejected(r.reason))
  {
    var r := TranslateBatch(s, texts, sourceLang, targetLang, now, responseOf);
    var ls := BeginAll(s, texts, sourceLang, targetLang, now).lookups;
    if r.Rejected? {
      var i :| 0 <= i < |ls| && Settle(ls[i], responseOf) == Rejected(r.reason);
      LookupAt(s, texts, sourceLang, targetLang, now, i);
    }
  }

  // ---------------------------------------------------------------------
  // The service object
  // ---------------------------------------------------------------------

  /** `class TranslationService`: the singleton that owns the cache and the pending requests. */
  class TranslationService {
    var cache: Cache
    var pending: map<string, Request>

    ghost predicate Valid()
      reads this
    {
      PendingKeyed(pending)
    }

    function Snapshot(): ServiceState
      reads this
    {
      ServiceState(cache, pending)
    }

    constructor ()
      ensures Valid()
      ensures cache == map[] && pending == map[]
    {
      cache := map[];
      pending := map[];
    }

    /** `translateText` up to its first `await`. */
    method Begin(text: string, sourceLang: string, targetLang: string, now: int) returns (r: Lookup)
      requires Valid()
      modifies this
      ensures Valid()
      ensures Began(r, Snapshot()) == BeginStep(old(Snapshot()), text, sourceLang, targetLang, now)
      ensures cache == old(cache)
      ensures r.Started? ==> pending == old(pending)[CacheKey(text, sourceLang, targetLang) := r.request]
      ensures !r.Started? ==> pending == old(pending)
    {
      if IsBlank(text) || sourceLang == targetLang {
        return Immediate(text);
      }
      var key := CacheKey(text, sourceLang, targetLang);
      if text in cache && targetLang in cache[text] && IsValidCached(cache[text][targetLang], now) {
        return Immediate(cache[text][targetLang].text);
      }
      if key in pending {
        return Joined(pending[key]);
      }
      var request := Request(text, sourceLang, targetLang);
      pending := pending[key := request];
      r := Started(request);
    }

    /** The rest of the originating `translateText` call, once the network has answered `response`. */
    method Complete(request: Request, response: Response, now: int) returns (result: string)
      requires Valid()
      modifies this
      ensures Valid()
      ensures Completed(result, Snapshot()) == CompleteStep(old(Snapshot()), request, response, now)
      ensures pending == old(pending) - {KeyOf(request)}
    {
      var outcome := PerformTranslation(request.text, response);
      if outcome.Fulfilled? {
        if request.text !in cache {
          cache := cache[request.text := map[]];
        }
        cache := cache[request.text := cache[request.text][request.targetLang := CacheEntry(outcome.value, now)]];
        result := outcome.value;
      } else {
        result := request.text;
      }
      pending := pending - {KeyOf(request)};
    }

    /** `translateBatch` up to the point where every element has begun. */
    method BeginBatch(texts: seq<string>, sourceLang: string, targetLang: string, now: int) returns (lookups: seq<Lookup>)
      requires Valid()
      modifies this
      ensures Valid()
      ensures BatchBegun(lookups, Snapshot()) == BeginAll(old(Snapshot()), texts, sourceLang, targetLang, now)
    {
      lookups := [];
      var i := 0;
      while i < |texts|
        invariant 0 <= i <= |texts|
        invariant Valid()
        invariant var rest := BeginAll(Snapshot(), texts[i..], sourceLang, targetLang, now);
                  BeginAll(old(Snapshot()), texts, sourceLang, targetLang, now) == BatchBegun(lookups + rest.lookups, rest.state)
      {
        ghost var before := Snapshot();
        var l := Begin(texts[i], sourceLang, targetLang, now);
        assert texts[i..][1..] == texts[i + 1..];
        assert lookups + ([l] + BeginAll(Snapshot(), texts[i + 1..], sourceLang, targetLang, now).lookups)
            == (lookups + [l]) + BeginAll(Snapshot(), texts[i + 1..], sourceLang, targetLang, now).lookups;
        lookups := lookups + [l];
        i := i + 1;
      }
      assert texts[i..] == [];
      assert lookups + [] == lookups;
    }

    /** `clearCache`. */
    method ClearCache()
      modifies this
      ensures Valid()
      ensures Snapshot() == ClearStep(old(Snapshot()))
    {
      cache := map[];
      pending := map[];
    }

    /** `getCacheSize`: the number of distinct source texts cached, not of (text, language) pairs. */
    function CacheSize(): (n: nat)
      reads this
      ensures n == |cache.Keys|
    {
      |cache.Keys|
    }
  }

  /** `useLibreTranslate().translateText`: blank text returns at once, otherwise the service is asked. */
  method HookTranslateText(service: TranslationService, text: string, sourceLang: string, language: string, now: int)
    returns (r: Lookup)
    requires service.Valid()
    modifies service
    ensures service.Valid()
    ensures Began(r, service.Snapshot()) == BeginStep(old(service.Snapshot()), text, sourceLang, language, now)
  {
    if IsBlank(text) {
      return Immediate(text);
    }
    r := service.Begin(text, sourceLang, language, now);
  }

  /** `useLibreTranslate().translateBatch`: an empty list returns at once, otherwise the service is asked. */
  method HookTranslateBatch(service: TranslationService, texts: seq<string>, sourceLang: string, language: string, now: int)
    returns (lookups: seq<Lookup>)
    requires service.Valid()
    modifies service
    ensures service.Valid()
    ensures BatchBegun(lookups, service.Snapshot()) == BeginAll(old(service.Snapshot()), texts, sourceLang, language, now)
  {
    if |texts| == 0 {
      return [];
    }
    lookups := service.BeginBatch(texts, sourceLang, language, now);
  }

  /** Two identical calls before any answer: one request, and both callers settle alike on success. */
  method CoalescingScenario(text: string, now: int, translated: string)
    requires !IsBlank(text) && translated != ""
  {
    var service := new TranslationService();
    var a := service.Begin(text, "en", "es", now);
    var b := service.Begin(text, "en", "es", now);
    assert a == Started(Request(text, "en", "es"));
    assert b == Joined(Request(text, "en", "es"));
    var response := Reply(200, Parsed(Some(translated)));
    var result := service.Complete(a.request, response, now);
    assert result == translated;
    assert PerformTranslation(b.inFlight.text, response) == Fulfilled(translated);
    var c := service.Begin(text, "en", "es", now + 1);
    assert c == Immediate(translated);
    assert service.CacheSize() == 1;
  }
}
