/**
 * The hooks of src/hooks/useTranslatedContent.ts, without React: what
 * `useTranslatedArray`'s `translateItems` stores as the translated items,
 * what `useTranslatedObject` hands out, and the text `useTranslatedText`
 * shows. `translateItems` repeats the extraction and write-back of
 * `translateObjectArray`; the model reuses those members.
 */
module TranslatedContent {
  import opened Common
  import opened Text
  import opened JsonPath
  import opened LibreTranslate
  import opened ObjectTranslator

  // ---------------------------------------------------------------------
  // useTranslatedArray: translateItems
  // ---------------------------------------------------------------------

  /** `!enabled || !items.length || sourceLang === currentLanguage`: the items are kept as they are. */
  predicate ItemsShortCircuit(enabled: bool, items: seq<Json>, sourceLang: string, currentLanguage: string) {
    !enabled || |items| == 0 || sourceLang == currentLanguage
  }

  /** `useLibreTranslate().translateBatch`: an empty list is returned at once, anything else goes to the service. */
  function HookBatch(s: ServiceState, texts: seq<string>, sourceLang: string, language: string,
                     now: int, responseOf: string -> Response): (r: Settled<seq<string>>)
    ensures r == TranslateBatch(s, texts, sourceLang, language, now, responseOf)
  {
    if |texts| == 0 then Fulfilled(texts) else TranslateBatch(s, texts, sourceLang, language, now, responseOf)
  }

  /**
   * The items `translateItems` stores: the items themselves on a short-circuit
   * or when the batch fails (the `catch` falls back to them), otherwise the
   * write-back of the translated batch into a copy.
   */
  function TranslateItemsSpec(enabled: bool, items: seq<Json>, fields: seq<string>, sourceLang: string,
                              currentLanguage: string, s: ServiceState, now: int, responseOf: string -> Response): (r: seq<Json>)
    ensures |r| == |items|
    ensures forall i :: 0 <= i < |items| ==> Shape(r[i]) == Shape(items[i])
    ensures ItemsShortCircuit(enabled, items, sourceLang, currentLanguage) ==> r == items
  {
    if ItemsShortCircuit(enabled, items, sourceLang, currentLanguage) then items
    else
      match HookBatch(s, TextsOf(AllItems(items, fields)), sourceLang, currentLanguage, now, responseOf)
      case Rejected(_) => items
      case Fulfilled(tr) =>
        TranslatedKeepsShape(items, fields, tr);
        Translated(items, fields, tr)
  }

  /** `translateItems`: extract, translate the batch, write back into a copy, or fall back to the items. */
  method TranslateItems(enabled: bool, items: seq<Json>, fields: seq<string>, sourceLang: string,
                        currentLanguage: string, s: ServiceState, now: int, responseOf: string -> Response)
    returns (translatedItems: seq<Json>)
    ensures translatedItems == TranslateItemsSpec(enabled, items, fields, sourceLang, currentLanguage, s, now, responseOf)
  {
    if !enabled || |items| == 0 || sourceLang == currentLanguage {
      return items;
    }
    var texts, textMap := ExtractTexts(items, fields);
    var batch := HookBatch(s, texts, sourceLang, currentLanguage, now, responseOf);
    match batch
    case Rejected(_) =>
      translatedItems := items;
    case Fulfilled(translated) =>
      EntriesTargetStrings(items, fields, translated);
      translatedItems := WriteBack(items, textMap, translated);
  }

  /**
   * The hook's copy of the algorithm agrees with `translateObjectArray` into
   * the current language, except that a failed batch leaves the items as they
   * were instead of rejecting.
   */
  lemma {:induction false} ItemsAgreeWithHelper(items: seq<Json>, fields: seq<string>, sourceLang: string, currentLanguage: string,
                             s: ServiceState, now: int, responseOf: string -> Response)
    ensures var helper := TranslateObjectArraySpec(items, fields, currentLanguage, sourceLang, s, now, responseOf);
            TranslateItemsSpec(true, items, fields, sourceLang, currentLanguage, s, now, responseOf)
              == if helper.Fulfilled? then helper.value else items
  {
  }

  /**
   * After a successful batch, each collected text (with no field requested
   * twice) holds its own translation, and every string that was not
   * collected keeps its text.
   */
  lemma {:induction false} TranslatedItemsLeaves(items: seq<Json>, fields: seq<string>, sourceLang: string,
                                                 currentLanguage: string, s: ServiceState, now: int,
                                                 responseOf: string -> Response, tr: seq<string>)
    requires !ItemsShortCircuit(true, items, sourceLang, currentLanguage)
    requires HookBatch(s, TextsOf(AllItems(items, fields)), sourceLang, currentLanguage, now, responseOf) == Fulfilled(tr)
    ensures var r := TranslateItemsSpec(true, items, fields, sourceLang, currentLanguage, s, now, responseOf);
            NoDuplicates(fields) ==>
              forall k :: 0 <= k < |tr| ==>
                At(r[AllItems(items, fields)[k].objIndex], AddrLoc(AllItems(items, fields)[k].address)) == Some(Str(tr[k]))
    ensures var r := TranslateItemsSpec(true, items, fields, sourceLang, currentLanguage, s, now, responseOf);
            forall i, loc, str :: 0 <= i < |items| && At(items[i], loc) == Some(Str(str))
              && (forall it :: it in AllItems(items, fields) ==> it.objIndex != i || AddrLoc(it.address) != loc)
              ==> At(r[i], loc) == Some(Str(str))
  {
    var all := AllItems(items, fields);
    assert |tr| == |TextsOf(all)| == |all|;
    var r := TranslateItemsSpec(true, items, fields, sourceLang, currentLanguage, s, now, responseOf);
    assert r == Translated(items, fields, tr);
    if NoDuplicates(fields) {
      forall k | 0 <= k < |tr|
        ensures At(r[all[k].objIndex], AddrLoc(all[k].address)) == Some(Str(tr[k]))
      {
        CollectedTranslated(items, fields, tr, k);
      }
    }
    forall i, loc, str | 0 <= i < |items| && At(items[i], loc) == Some(Str(str))
        && (forall it :: it in all ==> it.objIndex != i || AddrLoc(it.address) != loc)
      ensures At(r[i], loc) == Some(Str(str))
    {
      UncollectedUnchanged(items, fields, tr, i, loc, str);
    }
  }

  /** A batch that hands every text back unchanged leaves the items as they were. */
  lemma {:induction false} UnchangedBatchKeepsItems(enabled: bool, items: seq<Json>, fields: seq<string>, sourceLang: string,
                                                    currentLanguage: string, s: ServiceState, now: int,
                                                    responseOf: string -> Response)
    requires var texts := TextsOf(AllItems(items, fields));
             HookBatch(s, texts, sourceLang, currentLanguage, now, responseOf) == Fulfilled(texts)
    ensures TranslateItemsSpec(enabled, items, fields, sourceLang, currentLanguage, s, now, responseOf) == items
  {
    IdentityTranslation(items, fields);
  }

  // ---------------------------------------------------------------------
  // useTranslatedObject
  // ---------------------------------------------------------------------

  /** `translatedItems[0] || obj`. */
  function TranslatedObject(translatedItems: seq<Json>, obj: Json): Json {
    if |translatedItems| > 0 && Truthy(translatedItems[0]) then translatedItems[0] else obj
  }

  /**
   * For a record, `useTranslatedObject` hands out the only translated item: it
   * has the record's shape, and when the batch succeeds it is what
   * `translateObject` into the current language settles to.
   */
  lemma {:induction false} TranslatedObjectIsFirstItem(enabled: bool, obj: Json, fields: seq<string>, sourceLang: string,
                                                       currentLanguage: string, s: ServiceState, now: int,
                                                       responseOf: string -> Response)
    requires obj.Obj?
    ensures var items := TranslateItemsSpec(enabled, [obj], fields, sourceLang, currentLanguage, s, now, responseOf);
            var r := TranslatedObject(items, obj);
            var helper := TranslateObjectArraySpec([obj], fields, currentLanguage, sourceLang, s, now, responseOf);
            r == items[0] && Shape(r) == Shape(obj)
            && (enabled && helper.Fulfilled? ==> r == helper.value[0])
            && (!enabled || helper.Rejected? ==> r == obj)
  {
    var items := TranslateItemsSpec(enabled, [obj], fields, sourceLang, currentLanguage, s, now, responseOf);
    assert Shape(items[0]) == Shape(obj);
    assert items[0].Obj?;
    if enabled {
      ItemsAgreeWithHelper([obj], fields, sourceLang, currentLanguage, s, now, responseOf);
    }
  }

  // ---------------------------------------------------------------------
  // useTranslatedText
  // ---------------------------------------------------------------------

  /** `!enabled || !textToTranslate || sourceLang === currentLanguage`: the text is shown as it is. */
  predicate TextShortCircuit(enabled: bool, text: string, sourceLang: string, currentLanguage: string) {
    !enabled || text == "" || sourceLang == currentLanguage
  }

  /**
   * The text `useTranslatedText` shows once its request settles: the text
   * itself on a short-circuit or on a rejection (the `catch` falls back to
   * it), otherwise what `translateText` into the current language settles to.
   */
  function DisplayedText(enabled: bool, text: string, sourceLang: string, currentLanguage: string,
                         s: ServiceState, now: int, responseOf: string -> Response): (r: string)
    ensures TextShortCircuit(enabled, text, sourceLang, currentLanguage) || IsBlank(text) ==> r == text
  {
    if TextShortCircuit(enabled, text, sourceLang, currentLanguage) then text
    else
      match Settle(BeginStep(s, text, sourceLang, currentLanguage, now).lookup, responseOf)
      case Fulfilled(t) => t
      case Rejected(_) => text
  }

  /**
   * The text shown once `text` changes: the effect hands only a non-empty
   * text to the debounced callback, so after a change to the empty text the
   * previous translation `shown` stays on screen.
   */
  function ShownAfterChange(shown: string, enabled: bool, text: string, sourceLang: string, currentLanguage: string,
                            s: ServiceState, now: int, responseOf: string -> Response): string
  {
    if text != "" then DisplayedText(enabled, text, sourceLang, currentLanguage, s, now, responseOf) else shown
  }

  /**
   * Clearing the text does not clear the translation: whatever was shown
   * stays, even though the callback would show the empty text.
   */
  lemma {:induction false} EmptyTextKeepsShown(shown: string, enabled: bool, sourceLang: string, currentLanguage: string,
                                               s: ServiceState, now: int, responseOf: string -> Response)
    ensures ShownAfterChange(shown, enabled, "", sourceLang, currentLanguage, s, now, responseOf) == shown
    ensures DisplayedText(enabled, "", sourceLang, currentLanguage, s, now, responseOf) == ""
  {
  }

  /** A non-empty text that needs no translation is shown as it is, replacing any earlier translation. */
  lemma {:induction false} NewTextReplacesShown(shown: string, enabled: bool, text: string, sourceLang: string,
                                                currentLanguage: string, s: ServiceState, now: int, responseOf: string -> Response)
    requires text != ""
    requires TextShortCircuit(enabled, text, sourceLang, currentLanguage) || IsBlank(text)
    ensures ShownAfterChange(shown, enabled, text, sourceLang, currentLanguage, s, now, responseOf) == text
  {
  }

  /** A fresh cached translation is shown. */
  lemma {:induction false} CachedTextShown(text: string, sourceLang: string, currentLanguage: string,
                        s: ServiceState, now: int, responseOf: string -> Response, cached: string)
    requires !IsBlank(text) && sourceLang != currentLanguage
    requires CachedTranslation(s.cache, text, currentLanguage, now) == Some(cached)
    ensures DisplayedText(true, text, sourceLang, currentLanguage, s, now, responseOf) == cached
  {
  }

  /**
   * When the request for the text fails, the original text is shown, whether
   * this call started the request or joined one already in flight (whose raw
   * rejection the hook catches).
   */
  lemma {:induction false} FailedTranslationShowsOriginal(text: string, sourceLang: string, currentLanguage: string,
                                                          s: ServiceState, now: int, responseOf: string -> Response)
    requires PendingKeyed(s.pending)
    requires PerformTranslation(text, responseOf(CacheKey(text, sourceLang, currentLanguage))).Rejected?
    requires CachedTranslation(s.cache, text, currentLanguage, now).None?
    ensures DisplayedText(true, text, sourceLang, currentLanguage, s, now, responseOf) == text
  {
    var key := CacheKey(text, sourceLang, currentLanguage);
    if !TextShortCircuit(true, text, sourceLang, currentLanguage) && !IsBlank(text) {
      var l := BeginStep(s, text, sourceLang, currentLanguage, now).lookup;
      if l.Joined? {
        assert KeyOf(l.inFlight) == key;
        assert Settle(l, responseOf).Rejected?;
      }
    }
  }

  /** When the answer for the text carries a translation, that translation is shown. */
  lemma {:induction false} TranslationShown(text: string, sourceLang: string, currentLanguage: string,
                                            s: ServiceState, now: int, responseOf: string -> Response, translated: string)
    requires PendingKeyed(s.pending)
    requires !IsBlank(text) && sourceLang != currentLanguage
    requires var answer := responseOf(CacheKey(text, sourceLang, currentLanguage));
             answer.Reply? && 200 <= answer.status <= 299 && answer.body == Parsed(Some(translated)) && translated != ""
    requires CachedTranslation(s.cache, text, currentLanguage, now).None?
    ensures DisplayedText(true, text, sourceLang, currentLanguage, s, now, responseOf) == translated
  {
    var key := CacheKey(text, sourceLang, currentLanguage);
    assert text != "";
    var l := BeginStep(s, text, sourceLang, currentLanguage, now).lookup;
    if l.Joined? {
      assert KeyOf(l.inFlight) == key;
      assert Settle(l, responseOf) == Fulfilled(translated);
    }
  }
}
