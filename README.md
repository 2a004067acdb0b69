# diet-crafter-pro translation layer in Dafny

This project models the translation layer of diet-crafter-pro, a React app that translates meal plans and recipes through a LibreTranslate endpoint. The model covers four parts:

- **Field-path object translation**: `translateObjectArray` and `translateObject` in `src/utils/translationHelpers.ts`, and their copy inside `useTranslatedArray`'s `translateItems`.
  - For each record and each dotted field path, the value is looked up with `getNestedProperty`.
  - A non-blank string becomes one text to translate. An array contributes each of its non-blank string elements.
  - Each text gets a `textMap` record that notes the record index, the address and the text's position in the batch.
  - After one batch call, every translation is written back into a copy with `setNestedProperty`.
- **The `TranslationService` singleton** in `src/hooks/useLibreTranslate.ts`:
  - a cache keyed by source text, then target language, with lazy 24-hour expiry;
  - a map of pending requests keyed by `source:target:text`, which coalesces identical calls that are in flight;
  - `translateText`, `translateBatch`, `clearCache`, `getCacheSize`;
  - the empty-input short-circuits of the `useLibreTranslate` wrappers.
- **`extractTranslatableText`**: the recursive walk that reports every non-blank string of a value with its `a.b[0]` path, optionally filtered by field names.
- **The small helpers** `isTranslationNeeded`, `createTranslationCacheKey` and `formatTranslationError`, and the pure rules of the hooks in `src/hooks/useTranslatedContent.ts`.

Modules, one file each:

- `Common` (`common.dfy`): `Option`.
- `Text` (`text.dfy`): `trim`-blankness, `includes`, `split`/`join`, template-literal numbers and `parseInt`, `replace` of one character.
- `JsonPath` (`json_path.dfy`): the `Json` values and locations inside them. `getNestedProperty` and `setNestedProperty` live here.
- `LibreTranslate` (`libre_translate.dfy`): the service, both as a pure state machine and as the class `TranslationService` with `map` fields.
- `ObjectTranslator` (`object_translator.dfy`): extraction, write-back and `translateObjectArray`.
- `TextExtraction` (`text_extraction.dfy`): `extractTranslatableText`.
- `Helpers` (`helpers.dfy`): the small helpers.
- `TranslatedContent` (`translated_content.dfy`): the hooks of `useTranslatedContent.ts`.

Modelling choices:

- **Time and the network are parameters.**
  - The clock is a parameter `now`.
  - The asynchronous `translateText` is split in two steps:
    - `Begin`: the synchronous part up to the first `await`.
    - `Complete`: what runs when the network answers.
  - The network is an oracle `responseOf` from a pending key to a `Response`.
  - A caller's promise settles through `Settle`.
- **The service is written twice.** `TranslationService` is a class whose methods change `cache` and `pending` in place. Each method is proved against the pure step function (`BeginStep`, `CompleteStep`, `ClearStep`) that the lemmas are about.
- **Extraction and write-back are methods with loops.**
  - The extraction methods are proved against functions that say which texts are collected and in which order.
  - `extractTranslatableText` keeps the source's recursion into an accumulator. Its contract uses ghost locations: the records it reports are exactly the reported strings, each once, in depth-first order (`DepthFirst`), with object keys in any order.
- **Addresses are typed: `Field(path)` or `Index(path, i)`.** The `field[i]` strings the source builds and re-splits on `[` are modelled separately, as `EncodeAddress`/`DecodeAddress`, and give the finding below.

Where the behaviour of the code differs from what its comments and design suggest, the model follows the code, with one exception. The write-back of `translateObjectArray` and `translateItems` uses typed addresses, which is the corrected behaviour of the finding below. The string decoding as written is modelled beside it (`BracketFieldMisdecoded`), and the two agree on every requested path without `[` (`WriteEncodedAgrees`). Everywhere else the model follows the code:

- **The cache ignores the source language.** It is keyed by text and target language only, while the pending key includes the source language. A text cached from one source language is served for any other.
- **A coalesced caller gets the shared promise as it is.**
  - Only the originating call turns a failure into the original text. A caller that joined an in-flight request sees the rejection.
  - So a batch containing the same text twice rejects when that request fails (`DuplicateTextRejectsBatch`).
  - `translateObjectArray` then rejects too.
  - `translateItems` instead falls back to the untranslated items as a whole.
- **`clearCache` affects requests already in flight.**
  - A request started before `clearCache` still writes its result into the cache when it completes.
  - Its `finally` also deletes, by key, the pending entry of a newer identical request (`StaleCompletionDropsNewerPending`).
- **`formatTranslationError` never recognises the service's own HTTP failures.** It reads `error.response.status`, but the service throws a plain `Error` whose message is `Translation API error: <status>`. Those errors are always formatted with the generic message (`HttpErrorsFormatAsFallback`).

## Model

| member | source | states |
|---|---|---|
| Text.ContainsAt | src/utils/translationHelpers.ts:121 | `s.includes(sub)` holds iff `sub` occurs in `s` at some position |
| Text.ContainsChar | src/utils/translationHelpers.ts:54 | `field.includes('[')` holds iff `[` is a character of `field` |
| Text.JoinSplit | src/utils/translationHelpers.ts:87 | joining the pieces of `path.split('.')` with `.` gives the path back |
| Text.SplitJoin | src/utils/translationHelpers.ts:87 | splitting a `.`-join of dot-free keys gives the keys back |
| Text.SplitNoSeparator | src/utils/translationHelpers.ts:87 | no piece of a split contains the separator |
| Text.SplitAtSeparator | src/utils/translationHelpers.ts:56 | a field containing `[` splits into at least two pieces, so `indexStr` exists |
| Text.ParseIntNatToString | src/utils/translationHelpers.ts:57 | `parseInt` of a rendered array index gives the index back |
| Text.RemoveFirstAfter | src/utils/translationHelpers.ts:57 | `replace(']', '')` drops exactly the first `]` |
| JsonPath.GetPathAt | src/utils/translationHelpers.ts:86-88 | `getNestedProperty` descends along the keys of the split path, yielding undefined as soon as a key is missing |
| JsonPath.GetPathMissingPrefix | src/utils/translationHelpers.ts:86-88 | once a prefix of the path is missing, the whole path is missing |
| JsonPath.GetAfterSet | src/utils/translationHelpers.ts:93-101 | after `setNestedProperty(o, p, v)`, `getNestedProperty(o, p)` is `v` |
| JsonPath.SetIntoEmpty | src/utils/translationHelpers.ts:96-99 | missing intermediates are created as empty objects |
| JsonPath.SetElsewhere | src/utils/translationHelpers.ts:93-101 | a write leaves every path that parts from the written one as it was |
| JsonPath.SetExistingIsPut | src/utils/translationHelpers.ts:93-101 | on an existing path, `setNestedProperty` replaces exactly the value there |
| JsonPath.PutElsewhere | src/utils/translationHelpers.ts:51-65 | replacing the value at one location changes nothing at a location that parts from it |
| JsonPath.SameShapeAndStrings | src/utils/translationHelpers.ts:51-65 | a record is determined by its shape and the strings at its string leaves |
| ObjectTranslator.AddrLocInjective | src/utils/translationHelpers.ts:30-34 | different addresses (`path` or `path[i]`) name different places in a record |
| ObjectTranslator.RecordLookups | src/utils/translationHelpers.ts:23-24 | one `getNestedProperty` lookup per requested field, in field order |
| ObjectTranslator.AllItemsSound | src/utils/translationHelpers.ts:22-41 | every collected text is a non-blank string of its record, found at its address under a requested field |
| ObjectTranslator.ItemsOrdered | src/utils/translationHelpers.ts:22-41 | texts are collected record by record, then field by field, then element by element |
| ObjectTranslator.FieldTextCollected | src/utils/translationHelpers.ts:25-27 | a requested field holding a non-blank string has it collected |
| ObjectTranslator.ElementTextCollected | src/utils/translationHelpers.ts:28-37 | every non-blank string element of a requested array field is collected as `field[i]` |
| ObjectTranslator.ItemsDistinct | src/utils/translationHelpers.ts:22-41 | with no field requested twice, no two collected texts share a record and an address |
| ObjectTranslator.EntriesOf | src/utils/translationHelpers.ts:26 | `textMap` has one record per text and each `textIndex` is that record's own position |
| ObjectTranslator.CollectElements | src/utils/translationHelpers.ts:29-38 | the element loop appends exactly the element texts, with `textIndex` the batch position |
| ObjectTranslator.CollectValue | src/utils/translationHelpers.ts:24-38 | one field's value appends its string or its array's strings, nothing for anything else |
| ObjectTranslator.CollectRecord | src/utils/translationHelpers.ts:23-39 | the field loop of one record appends that record's texts in field order |
| ObjectTranslator.ExtractTexts | src/utils/translationHelpers.ts:18-41 | the extraction loops build `textsToTranslate` and `textMap` for all collected texts, in order |
| ObjectTranslator.WriteAtIsPut | src/utils/translationHelpers.ts:53-65 | writing a translation at an address that holds a string replaces exactly that string |
| ObjectTranslator.WriteOneLeaf | src/utils/translationHelpers.ts:53-65 | one write keeps the record's shape, puts the text at its address and leaves every other string |
| ObjectTranslator.WriteBack | src/utils/translationHelpers.ts:53-65 | the write-back loop applies the `textMap` records in order to the copy |
| ObjectTranslator.WriteBackLeaves | src/utils/translationHelpers.ts:53-65 | after write-back each string leaf holds the translation of the last record targeting it, or its own text |
| ObjectTranslator.TranslatedKeepsShape | src/utils/translationHelpers.ts:51-67 | translation changes strings only: every record keeps its shape, and the result has as many records |
| ObjectTranslator.CollectedTranslated | src/utils/translationHelpers.ts:53-65 | each collected text is replaced by `translatedTexts[textIndex]` |
| ObjectTranslator.UncollectedUnchanged | src/utils/translationHelpers.ts:51-67 | every string that was not collected keeps its text |
| ObjectTranslator.IdentityTranslation | src/utils/translationHelpers.ts:51-65 | translating every text to itself gives the records back unchanged |
| ObjectTranslator.TranslateObjectArraySpec | src/utils/translationHelpers.ts:8-68 | same language or no records gives the records; otherwise a rejected batch rejects and a fulfilled one keeps length and shape |
| ObjectTranslator.TranslateObjectArray | src/utils/translationHelpers.ts:8-68 | `translateObjectArray` settles as its specification function says |
| ObjectTranslator.TranslateObject | src/utils/translationHelpers.ts:73-81 | `translateObject` is element 0 of the one-record array translation, with the record's shape |
| ObjectTranslator.SameLanguageIsIdentity | src/utils/translationHelpers.ts:14-16 | same source and target language gives the records themselves |
| ObjectTranslator.DecodeEncode | src/utils/translationHelpers.ts:54-57 | for paths without `[`, re-splitting the `field[i]` string recovers the address |
| ObjectTranslator.WriteEncodedAgrees | src/utils/translationHelpers.ts:53-65 | for paths without `[`, the write-back through strings equals the typed one |
| ObjectTranslator.BracketFieldMisdecoded | src/utils/translationHelpers.ts:54-57 | a field named `tags[0]` is collected from its key but written into a new array under `tags` |
| LibreTranslate.CacheKeyInjective | src/hooks/useLibreTranslate.ts:23-25 | with colon-free language codes, the pending key determines text, source and target |
| LibreTranslate.CachedTranslation | src/hooks/useLibreTranslate.ts:27-31 | a cache hit needs an entry for text and target younger than 24 hours, and yields its text |
| LibreTranslate.PerformTranslation | src/hooks/useLibreTranslate.ts:99-104 | a non-2xx status rejects; an OK answer without `translatedText` yields the original text |
| LibreTranslate.BeginStep | src/hooks/useLibreTranslate.ts:33-58 | short-circuit, fresh cache hit, join of a pending key, or a new pending request; only the last changes state |
| LibreTranslate.Store | src/hooks/useLibreTranslate.ts:63-70 | the entry for text and target is set, every other entry is unchanged |
| LibreTranslate.CompleteStep | src/hooks/useLibreTranslate.ts:60-78 | success caches the result and returns it; failure returns the text and keeps the cache; the key is dropped |
| LibreTranslate.Settle | src/hooks/useLibreTranslate.ts:52-54 | the originator never rejects; a joined caller gets the raw outcome of the shared request |
| LibreTranslate.StartedSettlesAsCompleted | src/hooks/useLibreTranslate.ts:60-78 | the originating caller receives what the completion step returns |
| LibreTranslate.BeginAll | src/hooks/useLibreTranslate.ts:107-114 | a batch begins one lookup per text, in order, without touching the cache |
| LibreTranslate.SettleAll | src/hooks/useLibreTranslate.ts:112-113 | `Promise.all` fulfils iff every element does, with element `i` the result of lookup `i`; otherwise it rejects with the reason of some rejecting element |
| LibreTranslate.TranslateBatch | src/hooks/useLibreTranslate.ts:107-114 | a fulfilled batch has one result per text |
| LibreTranslate.BatchStartsOncePerKey | src/hooks/useLibreTranslate.ts:52-58 | within a batch, a repeated text joins the request its first occurrence started |
| LibreTranslate.PendingKeptThroughBatch | src/hooks/useLibreTranslate.ts:52-58 | keys pending when a batch begins stay pending, with the same request |
| LibreTranslate.JoinedWhilePending | src/hooks/useLibreTranslate.ts:52-54 | a text whose request is pending joins it |
| LibreTranslate.StartedKeyWasFree | src/hooks/useLibreTranslate.ts:57-58 | a request is started only for a key that was not pending |
| LibreTranslate.BeginAllKeepsPendingKeyed | src/hooks/useLibreTranslate.ts:23-25 | every pending key stays the key of the request it holds |
| LibreTranslate.SecondCallJoins | src/hooks/useLibreTranslate.ts:52-58 | a second identical call while the first is in flight joins it |
| LibreTranslate.ServedFromCacheAfterSuccess | src/hooks/useLibreTranslate.ts:46-49 | after success, the same text and target within 24 hours is served from the cache, whatever the source language |
| LibreTranslate.ExpiredEntryNotServed | src/hooks/useLibreTranslate.ts:27-31 | an entry 24 hours old or older is not served, yet stays in the cache |
| LibreTranslate.FailureLeavesCache | src/hooks/useLibreTranslate.ts:73-78 | a failure returns the original text, leaves the cache and drops the key |
| LibreTranslate.ClearForcesRefetch | src/hooks/useLibreTranslate.ts:116-119 | after `clearCache` a call that does not short-circuit starts a new request |
| LibreTranslate.StaleCompletionDropsNewerPending | src/hooks/useLibreTranslate.ts:76-78 | a request from before `clearCache` removes the pending entry of a newer identical request |
| LibreTranslate.CacheSizeCountsTexts | src/hooks/useLibreTranslate.ts:121-123 | `getCacheSize` counts source texts, so caching another language of a cached text does not grow it |
| LibreTranslate.DuplicateTextRejectsBatch | src/hooks/useLibreTranslate.ts:52-54 | a batch with a text twice rejects on that request's HTTP error, while a single call returns the text |
| LibreTranslate.TranslateBatchElement | src/hooks/useLibreTranslate.ts:107-114 | element `i` of a fulfilled batch is what `translateText(texts[i])` settles to, begun in the state the batch reached before it |
| LibreTranslate.TranslateBatchRejection | src/hooks/useLibreTranslate.ts:107-114 | a rejected batch rejects with the reason one of its texts' calls rejects with |
| LibreTranslate.TranslationService.constructor | src/hooks/useLibreTranslate.ts:17-19 | the service starts with an empty cache and no pending requests |
| LibreTranslate.TranslationService.Begin | src/hooks/useLibreTranslate.ts:33-58 | the object's maps change as `BeginStep` says: only a started request adds its pending key |
| LibreTranslate.TranslationService.Complete | src/hooks/useLibreTranslate.ts:60-78 | the object's maps change as `CompleteStep` says and the request's key is removed |
| LibreTranslate.TranslationService.BeginBatch | src/hooks/useLibreTranslate.ts:107-114 | the batch loop begins each text in turn, as `BeginAll` says |
| LibreTranslate.TranslationService.ClearCache | src/hooks/useLibreTranslate.ts:116-119 | both maps are emptied |
| LibreTranslate.HookTranslateText | src/hooks/useLibreTranslate.ts:134-147 | blank text returns at once; otherwise the service is asked, with the same effect |
| LibreTranslate.HookTranslateBatch | src/hooks/useLibreTranslate.ts:149-162 | an empty list returns at once; otherwise the service is asked |
| TextExtraction.ExtractFrom | src/utils/translationHelpers.ts:119-134 | pushes after the existing records exactly the reported strings below the value, each once, with their paths, in depth-first order |
| TextExtraction.ExtractItems | src/utils/translationHelpers.ts:125-128 | the array loop reports exactly the strings below the array, element by element: each element's records in one run, elements in index order |
| TextExtraction.ExtractFields | src/utils/translationHelpers.ts:129-133 | the entries loop reports exactly the strings below the object, each key's records in one run |
| TextExtraction.ExtractTranslatableText | src/utils/translationHelpers.ts:113-138 | the result lists every non-blank string whose path is wanted (any, or one containing a filter entry), each once, with its text and path, in depth-first order |
| TextExtraction.DepthFirstAppend | src/utils/translationHelpers.ts:125-133 | appending a child's run after the runs of earlier children, and after lower array positions, keeps the walk depth-first |
| TextExtraction.StringArrayInOrder | src/utils/translationHelpers.ts:124-127 | for an array of non-blank strings, element `k` is reported at position `k`, with path `path[k]` |
| TextExtraction.RecordsUnder | src/utils/translationHelpers.ts:125-133 | what a child reports is reported by its parent one step down, under the extended path |
| TextExtraction.BelowChild | src/utils/translationHelpers.ts:125-133 | below a child, the reported path continues from the child's path |
| TextExtraction.StringReports | src/utils/translationHelpers.ts:120-124 | a string reports itself at its own path iff it is not blank and the path is wanted |
| TextExtraction.ScalarReportsNothing | src/utils/translationHelpers.ts:119-134 | `null`, booleans and numbers report nothing |
| TextExtraction.PathOfKeys | src/utils/translationHelpers.ts:130-131 | below object keys, the reported path is the keys joined with `.` |
| TextExtraction.ReportedPathLeadsBack | src/utils/translationHelpers.ts:86-88 | a reported path below dot-free keys leads `getNestedProperty` back to the reported value |
| Helpers.NotNeededShortCircuits | src/utils/translationHelpers.ts:106-108 | when `isTranslationNeeded` is false, the service hands the text back and changes nothing |
| Helpers.CreateTranslationCacheKey | src/utils/translationHelpers.ts:143-149 | the helper's key is the service's pending key `source:target:text` |
| Helpers.CreateTranslationCacheKeyInjective | src/utils/translationHelpers.ts:143-149 | with colon-free language codes, different requests get different keys |
| Helpers.FormatTranslationError | src/utils/translationHelpers.ts:168-179 | 429, then 503, then a message containing `network`, otherwise the fallback, each iff its condition holds |
| Helpers.HttpErrorsFormatAsFallback | src/utils/translationHelpers.ts:168-179 | the service's HTTP errors are always formatted with the generic message |
| TranslatedContent.HookBatch | src/hooks/useLibreTranslate.ts:153 | the wrapper's empty-list return agrees with the service batch |
| TranslatedContent.TranslateItemsSpec | src/hooks/useTranslatedContent.ts:65-138 | the stored items keep count and shape, and are the items themselves when disabled, empty or same language |
| TranslatedContent.TranslateItems | src/hooks/useTranslatedContent.ts:65-138 | `translateItems` stores what its specification function says |
| TranslatedContent.ItemsAgreeWithHelper | src/hooks/useTranslatedContent.ts:91-135 | the hook's copy equals `translateObjectArray`, except that a failed batch gives back the items |
| TranslatedContent.TranslatedItemsLeaves | src/hooks/useTranslatedContent.ts:116-129 | each collected text gets its translation; every uncollected string keeps its text |
| TranslatedContent.UnchangedBatchKeepsItems | src/hooks/useTranslatedContent.ts:113-130 | a batch that hands every text back leaves the items unchanged |
| TranslatedContent.TranslatedObjectIsFirstItem | src/hooks/useTranslatedContent.ts:157-165 | `useTranslatedObject` gives element 0 of the array result, with the record's shape, or the record itself |
| TranslatedContent.DisplayedText | src/hooks/useTranslatedContent.ts:21-34 | the debounced callback shows its input when disabled, given the empty text, for blank text or the same language |
| TranslatedContent.EmptyTextKeepsShown | src/hooks/useTranslatedContent.ts:40-44 | the effect never hands the empty text to the callback, so clearing the text keeps the previous translation on screen |
| TranslatedContent.NewTextReplacesShown | src/hooks/useTranslatedContent.ts:40-44 | a non-empty text that needs no translation replaces whatever was shown |
| TranslatedContent.CachedTextShown | src/hooks/useTranslatedContent.ts:29-30 | a fresh cached translation is shown |
| TranslatedContent.FailedTranslationShowsOriginal | src/hooks/useTranslatedContent.ts:31-33 | a failed request shows the original text, also for a caller that joined it |
| TranslatedContent.TranslationShown | src/hooks/useTranslatedContent.ts:29-30 | an answer carrying a translation shows that translation |

## Left out

- `fetch`, `Promise` scheduling and `Date.now()`:
  - the network is an oracle from pending key to response;
  - asynchrony is the Begin/Complete split on one sequential state;
  - the clock is a parameter.
- The service state after a batch is not returned by `TranslateBatch`. Its effect on the cache is covered by the single-call lemmas only.
- Interleavings inside a batch: all lookups of a batch begin before any completes, which is how `texts.map` runs the synchronous parts.
- `debounce`, React state and effects, the loading flags and the providers: these are timers and UI plumbing.
- The `JSON.parse(JSON.stringify(...))` deep copy is the value semantics of Dafny sequences. Its loss of `undefined` and functions is not modelled.
- Numbers:
  - numbers are integers, because only equality and truthiness matter here;
  - floating point and `NaN` values are not modelled.
- Object key order is not modelled: objects are maps.
  - `Object.entries` order in `extractTranslatableText` is any order.
  - Its contract fixes everything else about the order: each subtree's records come in one run, and array positions come in index order.
- `getNestedProperty` and `setNestedProperty` descend through objects only.
  - A numeric or `length` segment into an array, such as `tags.0`, is not modelled.
  - A truthy non-object intermediate is left as it is. JavaScript would throw or set a property on it.
- JsonPath.GetAfterSet: stated for paths whose walk meets only objects, missing keys and falsy values, because of the gap above.
- Writing past the end of an array leaves JavaScript holes; the model pads them with `null`. The write-back never writes past the end.
- A `parseInt` of `NaN` makes the source write a property named `NaN`; the model leaves the record unchanged.
- `parseInt` is modelled for digit strings only, without sign or leading whitespace. These are the only strings the write-back builds.
- Numeric HTTP status text for negative statuses is rendered with a `-`.
- Network and parse failures of `fetch` carry browser-specific messages, so `formatTranslationError` is related only to the service's HTTP errors.
- ObjectTranslator.CollectedTranslated: stated for field lists without repeats. With a repeated field, the later `textMap` record for the same place wins. It carries the same text.
- TranslatedContent.FailedTranslationShowsOriginal: stated for pending maps whose keys are their requests' keys, which every reachable state satisfies (`BeginAllKeepsPendingKeyed`).
- TextExtraction.ExtractFrom: the ghost locations describe where each record comes from. Which object key is visited first is not fixed; array positions and nesting are (`DepthFirst`).
- LibreTranslate.SettleAll: `Promise.all` rejects with the reason of whichever element rejects first in time. The model has no completion times, so the contract promises only that the reason is one of the rejecting elements' reasons. With one failing request, as in `DuplicateTextRejectsBatch`, that fixes it.
- TranslatedContent.DisplayedText: the callback's outcome is what is shown only once it settles. The hook's initial `translatedText` is the text itself, and a change to the empty text never reaches the callback (`EmptyTextKeepsShown`).
- `isLoading` and `originalItems`/`originalText`, which the hooks return unchanged.
- ObjectTranslator.TranslateObjectArray: the write-back goes through typed addresses, not through the `field[i]` strings the source re-splits on `[`.
  - The two agree for requested paths without `[` (`WriteEncodedAgrees`).
  - For a requested path containing `[`, such as a key `tags[0]`, the source writes the translation elsewhere (see Findings).
  - There, the claims of `TranslateObjectArraySpec`, `TranslatedKeepsShape`, `IdentityTranslation` and `UncollectedUnchanged` describe the corrected write-back, not the source.
- TranslatedContent.TranslateItems: the same typed write-back stands in for the decoding copied into `translateItems`. For requested paths containing `[`, `TranslateItemsSpec`, `TranslatedItemsLeaves` and `UnchangedBatchKeepsItems` describe the corrected write-back.
- The cache is a plain JavaScript object in the source and a `map` in the model. Texts that name `Object.prototype` members, such as `constructor`, `toString` or `__proto__`, read inherited values there. They are not modelled; the four lines below name the contracts this affects.
- LibreTranslate.CachedTranslation: the iff assumes an own entry per text. Once `__proto__` is cached, its entry is inherited by every text and can be served for another text.
- LibreTranslate.Store: for `__proto__` the source writes onto `Object.prototype`, so other texts' entries change too.
- LibreTranslate.ClearForcesRefetch: an entry for a text such as `constructor` is written onto an inherited object, survives `clearCache`, and is still served.
- LibreTranslate.CacheSizeCountsTexts: `Object.keys` never counts such a text, while the lemma counts it.

## Findings

| source | as written | input that shows it | evidently intended | confidence | as-written member | corrected member |
|---|---|---|---|---|---|---|
| src/utils/translationHelpers.ts:54-57 | the write-back tells array elements from fields by `field.includes('[')` and re-splits the string on `[` | record `{"tags[0]": "hello"}` with field `tags[0]`: the text is collected from key `tags[0]`, but its translation goes into a new array under `tags` and `tags[0]` keeps `hello` | each translation is written back at the place it was collected from | low (a key containing `[` is unusual); not executed | ObjectTranslator.BracketFieldMisdecoded | ObjectTranslator.WriteAtIsPut |
