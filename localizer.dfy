/**
 * `init`: resolve the language, mark up the root, persist the choice, then,
 * if the dictionary loads, translate the page and wire the switcher.
 */
module Localizer {
  import opened Wrappers
  import opened Language
  import opened KeyPath
  import opened Dom
  import opened Navigation

  /** The `localStorage` key of the persisted preference. */
  const StorageKey: string := "site_lang"

  /** `window.localStorage`: string values under string keys, kept across page loads. */
  class Storage {
    var items: map<string, string>

    constructor(items: map<string, string>)
      ensures this.items == items
    {
      this.items := items;
    }

    /** `getItem`: the stored value, or nothing. */
    function GetItem(key: string): (r: Option<string>)
      reads this
      ensures r.None? <==> key !in items
    {
      if key in items then Some(items[key]) else None
    }

    /** `setItem`. */
    method SetItem(key: string, value: string)
      modifies this
      ensures items == old(items)[key := value]
      ensures GetItem(key) == Some(value)
      ensures forall k :: k != key ==> GetItem(k) == old(GetItem(k))
    {
      items := items[key := value];
    }
  }

  /** Where the dictionary of a language lives, under the `data-base` prefix. */
  function DictionaryUrl(prefix: string, lang: string): (r: string)
    ensures prefix <= r
  {
    prefix + "/locales/" + lang + "/common.json"
  }

  /** Different languages are fetched from different addresses. */
  lemma DictionaryUrlInjective(prefix: string, a: string, b: string)
    requires DictionaryUrl(prefix, a) == DictionaryUrl(prefix, b)
    ensures a == b
  {
    var u := DictionaryUrl(prefix, a);
    assert a == u[|prefix| + 9..|prefix| + 9 + |a|];
    assert b == u[|prefix| + 9..|prefix| + 9 + |b|];
  }

  /**
   * The prefix as `init` computes it. `init` reads `document.currentScript`,
   * which is null whenever `init` runs as the `DOMContentLoaded` handler, that
   * is, whenever the script ran while the document was still loading.
   */
  function PrefixAsWritten(loadingWhenRun: bool, dataBase: Option<string>): (r: string)
    ensures loadingWhenRun ==> r == ""
    ensures !loadingWhenRun ==> r == Prefix(dataBase)
  {
    var current := if loadingWhenRun then None else dataBase;
    Or(current, "")
  }

  /**
   * As written, a configured `data-base` is ignored when the script runs during
   * loading: the dictionary is fetched from the site root instead of under the base.
   */
  lemma PrefixIgnoredWhileLoading(dataBase: Option<string>, lang: string)
    ensures DictionaryUrl(PrefixAsWritten(true, dataBase), lang) == "/locales/" + lang + "/common.json"
    ensures Truthy(dataBase) ==> DictionaryUrl(PrefixAsWritten(true, dataBase), lang) != DictionaryUrl(Prefix(dataBase), lang)
  {
  }

  /** The prefix read from the script's `data-base` while the script itself runs. */
  function Prefix(dataBase: Option<string>): (r: string)
    ensures r == "" <==> !Truthy(dataBase)
  {
    Or(dataBase, "")
  }

  /** With the prefix read when the script runs, the dictionary is fetched under the configured base. */
  lemma DictionaryUnderBase(dataBase: Option<string>, lang: string)
    ensures Truthy(dataBase) ==> dataBase.value <= DictionaryUrl(Prefix(dataBase), lang)
    ensures !Truthy(dataBase) ==> DictionaryUrl(Prefix(dataBase), lang)[..9] == "/locales/"
  {
  }

  /** Is `doc[i]` the switcher, the first element `[data-i18n-switcher]` selects? */
  predicate IsSwitcherNode(doc: seq<Element>, i: int)
    requires 0 <= i < |doc|
  {
    doc[i].markers.switcher && forall j :: 0 <= j < i ==> !doc[j].markers.switcher
  }

  /** `document.querySelector('[data-i18n-switcher]')`: the index of the switcher, if any. */
  method FindSwitcher(doc: seq<Element>) returns (s: Option<nat>)
    ensures s.Some? ==> s.value < |doc| && IsSwitcherNode(doc, s.value)
    ensures s.None? ==> forall j :: 0 <= j < |doc| ==> !doc[j].markers.switcher
  {
    var i := 0;
    while i < |doc|
      invariant 0 <= i <= |doc|
      invariant forall j :: 0 <= j < i ==> !doc[j].markers.switcher
    {
      if doc[i].markers.switcher {
        return Some(i);
      }
      i := i + 1;
    }
    return None;
  }

  /** The switcher shows the language and listens for changes; no other element's controls change. */
  method WireSwitcher(doc: seq<Element>, lang: string)
    requires Distinct(doc)
    modifies set e | e in doc
    ensures forall i :: 0 <= i < |doc| ==> doc[i].State() == old(doc[i].State())
    ensures forall i :: 0 <= i < |doc| ==>
      if IsSwitcherNode(doc, i) then doc[i].value == lang && doc[i].listening
      else doc[i].value == old(doc[i].value) && doc[i].listening == old(doc[i].listening)
  {
    var s := FindSwitcher(doc);
    if s.Some? {
      var sel := doc[s.value];
      assert forall k :: 0 <= k < |doc| && k != s.value ==> doc[k] != sel;
      sel.value := lang;
      sel.listening := true;
      assert forall i :: 0 <= i < |doc| && IsSwitcherNode(doc, i) ==> i == s.value;
    }
  }

  /**
   * `init`. The network is `served`: the parsed body at each address that
   * answers successfully; an address outside it is a failed load. `dataBase`
   * is the script's `data-base`, read while the script runs.
   */
  method Init(location: Url, nav: Navigator, storage: Storage, root: Root, doc: seq<Element>,
              dataBase: Option<string>, served: map<string, Dict>) returns (lang: string)
    requires Distinct(doc)
    modifies storage, root, set e | e in doc
    ensures lang == ResolveLanguage(GetParam(location.query, "lang"), old(storage.GetItem(StorageKey)), nav)
    ensures IsSupported(lang)
    ensures storage.items == old(storage.items)[StorageKey := lang]
    ensures root.State() == WithLanguage(old(root.State()), lang)
    ensures DictionaryUrl(Prefix(dataBase), lang) !in served ==>
      forall e :: e in doc ==> e.State() == old(e.State()) && e.value == old(e.value) && e.listening == old(e.listening)
    ensures DictionaryUrl(Prefix(dataBase), lang) in served ==>
      var dict := served[DictionaryUrl(Prefix(dataBase), lang)];
      forall i :: 0 <= i < |doc| ==>
        && doc[i].State() == Translated(dict, doc[i].markers, IsTitleNode(doc, i), old(doc[i].State()))
        && if IsSwitcherNode(doc, i) then doc[i].value == lang && doc[i].listening
           else doc[i].value == old(doc[i].value) && doc[i].listening == old(doc[i].listening)
  {
    lang := PickLanguage(GetParam(location.query, "lang"), storage.GetItem(StorageKey), nav);
    if !IsSupported(lang) {
      lang := Default;
    }
    root.SetLangAttributes(lang);
    storage.SetItem(StorageKey, lang);

    var url := DictionaryUrl(Prefix(dataBase), lang);
    if url in served {
      ApplyTranslations(served[url], doc);
      WireSwitcher(doc, lang);
    }
  }

  /** With no `lang` parameter, the next page load resolves to the language just persisted. */
  lemma PreferenceSticks(lang: string, items: map<string, string>, nav: Navigator, query: Params)
    requires IsSupported(lang)
    requires GetParam(query, "lang").None?
    ensures ResolveLanguage(GetParam(query, "lang"), Some(items[StorageKey := lang][StorageKey]), nav) == lang
  {
    StorageWins(None, lang);
  }
}
