/**
 * Language resolution: which of the supported display languages a page load
 * uses, from the `lang` query parameter, the stored `site_lang` preference and
 * the browser's reported locale, in that order of priority.
 */
module Language {
  import opened Wrappers
  import opened Strings

  /** The twelve supported language codes, in the source's order. */
  const Supported: seq<string> := ["en", "ru", "es", "de", "fr", "pt", "it", "ar", "zh", "ja", "hi", "tr"]

  /** The code every failed resolution falls back to. */
  const Default: string := "en"

  predicate IsSupported(code: string) {
    code in Supported
  }

  /** Common lower-cased browser locales and the supported code each one means. */
  const LocaleMap: map<string, string> := map[
    "zh-cn" := "zh", "zh" := "zh", "zh-tw" := "zh",
    "pt-br" := "pt", "pt-pt" := "pt",
    "en-us" := "en", "en-gb" := "en",
    "es-es" := "es", "es-419" := "es",
    "de-de" := "de",
    "fr-fr" := "fr",
    "it-it" := "it",
    "ar" := "ar", "ar-ae" := "ar", "ar-eg" := "ar", "ar-sa" := "ar",
    "ja-jp" := "ja",
    "hi-in" := "hi",
    "tr-tr" := "tr",
    "ru-ru" := "ru"
  ]

  /** What the browser reports: `navigator.language` and the legacy `navigator.userLanguage`. */
  datatype Navigator = Navigator(language: Option<string>, userLanguage: Option<string>)

  /** JavaScript truthiness of a possibly absent string: present and non-empty. */
  predicate Truthy(s: Option<string>) {
    s.Some? && s.value != ""
  }

  /** `a || b` on possibly absent strings. */
  function Or(a: Option<string>, b: string): string {
    if Truthy(a) then a.value else b
  }

  /** The primary language subtag: the part of a locale before its first `-`. */
  function PrimarySubtag(locale: string): string {
    FirstPiece(locale, '-')
  }

  /** The lower-cased locale the browser step works on; `en` when the browser reports none. */
  function BrowserLocale(nav: Navigator): (r: string)
    ensures ToLower(r) == r
  {
    var reported := Or(nav.language, Or(nav.userLanguage, Default));
    ToLowerIdempotent(reported);
    ToLower(reported)
  }

  /** The browser step: the locale table, then the primary subtag, then `en`. */
  function FromLocale(locale: string): (r: string)
    ensures r != "" && '-' !in r
  {
    if locale in LocaleMap then LocaleMap[locale]
    else Or(Some(PrimarySubtag(locale)), Default)
  }

  /**
   * `pickLanguage`: the query parameter if it is a supported code, else the
   * stored preference if it is one, else what the browser locale gives. The
   * last step may yield a code outside the supported set.
   */
  function PickLanguage(param: Option<string>, stored: Option<string>, nav: Navigator): (r: string)
    ensures r != ""
    ensures IsSupported(r) || r == FromLocale(BrowserLocale(nav))
  {
    if Truthy(param) && IsSupported(param.value) then param.value
    else if Truthy(stored) && IsSupported(stored.value) then stored.value
    else FromLocale(BrowserLocale(nav))
  }

  /** The guard in `init`: whatever `pickLanguage` gave, collapsed into the supported set. */
  function ResolveLanguage(param: Option<string>, stored: Option<string>, nav: Navigator): (r: string)
    ensures IsSupported(r)
  {
    var picked := PickLanguage(param, stored, nav);
    if IsSupported(picked) then picked else Default
  }

  /** `isRTL`: right-to-left exactly for Arabic. */
  predicate IsRTL(code: string)
    ensures IsRTL(code) ==> IsSupported(code)
  {
    code in ["ar"]
  }

  // ---------------------------------------------------------------------------
  // Properties of the priority chain

  /** A supported `lang` parameter wins whatever storage and the browser say. */
  lemma ParamWins(c: string)
    requires IsSupported(c)
    ensures forall stored, nav :: ResolveLanguage(Some(c), stored, nav) == c
  {
  }

  /** Failing that, a supported stored preference wins over the browser locale. */
  lemma StorageWins(param: Option<string>, c: string)
    requires !(param.Some? && IsSupported(param.value))
    requires IsSupported(c)
    ensures forall nav :: ResolveLanguage(param, Some(c), nav) == c
  {
    forall nav: Navigator
      ensures ResolveLanguage(param, Some(c), nav) == c
    {
      assert PickLanguage(param, Some(c), nav) == c;
    }
  }

  /** Every entry of the locale table names the primary subtag of its own locale. */
  lemma {:induction false} LocaleMapIsPrimarySubtag()
    ensures forall l :: l in LocaleMap ==> LocaleMap[l] == PrimarySubtag(l)
  {
    forall l | l in LocaleMap
      ensures LocaleMap[l] == PrimarySubtag(l)
    {
      FirstPieceUnique(l, '-', LocaleMap[l]);
    }
  }

  /** So the browser step is "primary subtag of the lower-cased locale, else `en`". */
  lemma {:induction false} FromLocaleIsPrimarySubtag(locale: string)
    ensures FromLocale(locale) == (if PrimarySubtag(locale) == "" then Default else PrimarySubtag(locale))
  {
    LocaleMapIsPrimarySubtag();
  }

  /** The candidate the browser signal contributes. */
  function BrowserCandidate(nav: Navigator): string {
    PrimarySubtag(BrowserLocale(nav))
  }

  /** Reference definition: the first supported signal, in priority order, else `en`. */
  function FirstSupported(candidates: seq<Option<string>>): (r: string)
    ensures IsSupported(r)
    ensures r == Default || Some(r) in candidates
    ensures forall i :: 0 <= i < |candidates| && candidates[i].Some? && IsSupported(candidates[i].value) ==>
      exists j :: 0 <= j <= i && candidates[j] == Some(r)
  {
    if candidates == [] then Default
    else if candidates[0].Some? && IsSupported(candidates[0].value) then candidates[0].value
    else
      var r := FirstSupported(candidates[1..]);
      assert forall i :: 1 <= i < |candidates| ==> candidates[i] == candidates[1..][i - 1];
      r
  }

  /** Resolution is exactly "first supported signal wins", the browser's signal being its primary subtag. */
  lemma {:induction false} ResolveIsFirstSupported(param: Option<string>, stored: Option<string>, nav: Navigator)
    ensures ResolveLanguage(param, stored, nav) == FirstSupported([param, stored, Some(BrowserCandidate(nav))])
  {
    var b := BrowserCandidate(nav);
    FirstSupportedOfThree(param, stored, Some(b));
    if param.Some? && IsSupported(param.value) {
      ParamWins(param.value);
    } else if stored.Some? && IsSupported(stored.value) {
      StorageWins(param, stored.value);
    } else {
      FromLocaleIsPrimarySubtag(BrowserLocale(nav));
      assert !IsSupported("");
    }
  }

  /** The reference search over three signals, unrolled. */
  lemma FirstSupportedOfThree(a: Option<string>, b: Option<string>, c: Option<string>)
    ensures FirstSupported([a, b, c]) ==
      if a.Some? && IsSupported(a.value) then a.value
      else if b.Some? && IsSupported(b.value) then b.value
      else if c.Some? && IsSupported(c.value) then c.value
      else Default
  {
    FirstSupportedStep(a, [b, c]);
    FirstSupportedStep(b, [c]);
    FirstSupportedStep(c, []);
    assert [a] + [b, c] == [a, b, c];
    assert [b] + [c] == [b, c];
    assert [c] + [] == [c];
  }

  /** One step of the reference search. */
  lemma FirstSupportedStep(head: Option<string>, rest: seq<Option<string>>)
    ensures FirstSupported([head] + rest) ==
      if head.Some? && IsSupported(head.value) then head.value else FirstSupported(rest)
  {
    assert ([head] + rest)[1..] == rest;
  }

  /** The browser locale is matched case-insensitively. */
  lemma {:induction false} LocaleCaseInsensitive(param: Option<string>, stored: Option<string>, a: string, b: string, fallback: Option<string>)
    requires ToLower(a) == ToLower(b)
    ensures ResolveLanguage(param, stored, Navigator(Some(a), fallback)) ==
            ResolveLanguage(param, stored, Navigator(Some(b), fallback))
  {
  }

  /** `PT-BR` is matched case-insensitively to `pt`. */
  lemma UpperCaseLocale()
    ensures ResolveLanguage(None, None, Navigator(Some("PT-BR"), None)) == "pt"
  {
    var l := ToLower("PT-BR");
    assert l[0] == 'p' && l[1] == 't' && l[2] == '-' && l[3] == 'b' && l[4] == 'r';
    assert l == "pt-br";
  }

  /** `zh-TW` is a table entry for `zh`. */
  lemma TableLocale()
    ensures ResolveLanguage(None, None, Navigator(Some("zh-TW"), None)) == "zh"
  {
    var l := ToLower("zh-TW");
    assert l[0] == 'z' && l[1] == 'h' && l[2] == '-' && l[3] == 't' && l[4] == 'w';
    assert l == "zh-tw";
    assert LocaleMap["zh-tw"] == "zh";
  }

  /** `en-AU` is not in the table and falls back to its primary subtag. */
  lemma UnmappedRegion()
    ensures ResolveLanguage(None, None, Navigator(Some("en-AU"), None)) == "en"
  {
    var l := ToLower("en-AU");
    assert l[0] == 'e' && l[1] == 'n' && l[2] == '-' && l[3] == 'a' && l[4] == 'u';
    assert l == "en-au";
    FromLocaleIsPrimarySubtag(l);
    FirstPieceUnique(l, '-', "en");
  }

  /**
   * With no supported code in the query or in storage and a browser that
   * reports no locale (`null`, `undefined` or empty), the page resolves to `en`.
   */
  lemma NoLocale(param: Option<string>, stored: Option<string>, nav: Navigator)
    requires !Truthy(nav.language) && !Truthy(nav.userLanguage)
    requires !(param.Some? && IsSupported(param.value))
    requires !(stored.Some? && IsSupported(stored.value))
    ensures ResolveLanguage(param, stored, nav) == "en"
  {
  }

  /** `isRTL` holds of exactly one code, `ar`, which is supported. */
  lemma RTLOnlyArabic(code: string)
    ensures IsRTL(code) <==> code == "ar"
    ensures IsRTL(code) ==> IsSupported(code)
  {
  }
}
