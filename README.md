# Localiser model

A Dafny model of `assets/js/i18n.js`, the client-side localisation script of a
static site. On each page load the script picks one of twelve supported
language codes, marks up the document root with the language and the text
direction, persists the choice in `localStorage` under `site_lang`, fetches the
dictionary `<prefix>/locales/<code>/common.json` and rewrites every marked
element whose dot-separated key leads to a string. If a language switcher is
present, it is set to the code and navigates to the same address with
`lang=<code>` when the user picks a supported language.

Modules, in the order data flows through them:

- `Wrappers`: `Option`, standing for `null`/`undefined` versus a value.
- `Strings`: `split` on one separator character, its inverse `Join`, and ASCII `toLowerCase`.
- `Language`: the supported set, the locale table, `pickLanguage`, the guard in `init`, `isRTL`, and a reference definition ("first supported signal wins") proved equal to the resolution.
- `KeyPath`: dictionaries (`Str | Map | Other`) and the `key.split(".").reduce(...)` lookup.
- `Dom`: the root element (`setLangAttributes`) and page elements as classes updated in place; the three substitution passes of `applyTranslations` as per-element functions, per-element methods and loops over the document.
- `Navigation`: `URLSearchParams.get`/`set` on already-parsed pairs, and the switcher's `change` handler.
- `Localizer`: `localStorage` as a class, the dictionary address, and `init`.

The document is a sequence of distinct `Element` objects in document order.
`querySelectorAll(sel)` is "every element whose markers match", and
`querySelector(sel)` is "the first one". The network is a map from address to
parsed body. A missing address is a failed load: a non-success status or a body
that does not parse.

Two behaviours of the code are worth knowing:

- The `<title>` node also matches `[data-i18n]`. The first pass translates it, and then the title pass looks up the same key again. The title pass does not skip an empty key, so a `<title data-i18n="">` gets the dictionary's `""` entry if that entry is a string.
- The placeholder pass does not skip an empty key either.

`setAttribute` lower-cases the attribute name on an HTML element, so `data-i18n-attr="Title"` writes `title`. On one element the passes commute except when `data-i18n-attr` names `placeholder` in any letter case. That is the one attribute two passes can both write, and there the placeholder pass wins.

## Model

| member | source | states |
|---|---|---|
| `Strings.Split` | assets/js/i18n.js:51 | `split` gives at least one piece, no piece holds the separator, and joining the pieces gives back the input |
| `Strings.SplitJoin` | assets/js/i18n.js:51 | splitting undoes joining separator-free pieces, so the split pieces are exactly the key's segments |
| `Strings.JoinInjective` | assets/js/i18n.js:51 | two sequences of separator-free pieces that join to the same string are equal |
| `Strings.FirstPiece` | assets/js/i18n.js:34 | `nav.split("-")[0]` is a prefix of the locale with no `-`; it is the whole locale exactly when the locale has no `-`, and otherwise a `-` follows it |
| `Strings.FirstPieceUnique` | assets/js/i18n.js:34 | those properties determine the first piece uniquely |
| `Strings.ToLower` | assets/js/i18n.js:18 | `toLowerCase` keeps the length and lower-cases each character |
| `Strings.ToLowerIdempotent` | assets/js/i18n.js:18 | lower-casing twice is lower-casing once |
| `Language.BrowserLocale` | assets/js/i18n.js:18 | the locale the browser step works on is already lower-case (with `LocaleCaseInsensitive`: only its lower-casing matters) |
| `Language.FromLocale` | assets/js/i18n.js:20-34 | the browser step yields a non-empty code with no `-`: a table entry, the primary subtag, or `en` |
| `Language.PickLanguage` | assets/js/i18n.js:11-35 | `pickLanguage` never yields the empty string, and only its browser step can yield a code outside the supported set |
| `Language.ResolveLanguage` | assets/js/i18n.js:87-88 | after `init`'s guard the language is always one of the twelve supported codes |
| `Language.ParamWins` | assets/js/i18n.js:12-13 | a supported `lang` query value is the resolved language, whatever storage and the browser say |
| `Language.StorageWins` | assets/js/i18n.js:15-16 | otherwise a supported stored `site_lang` is the resolved language, whatever the browser says |
| `Language.LocaleMapIsPrimarySubtag` | assets/js/i18n.js:20-33 | every entry of the locale table maps a locale to its own primary subtag |
| `Language.FromLocaleIsPrimarySubtag` | assets/js/i18n.js:34 | so the browser step is "primary subtag of the lower-cased locale, or `en` if it is empty" |
| `Language.FirstSupported` | assets/js/i18n.js:11-35 | the reference search returns a supported code: the first supported candidate, or `en` |
| `Language.FirstSupportedStep` | assets/js/i18n.js:11-35 | one step of the reference search: a supported head wins, otherwise the search goes on in the rest |
| `Language.FirstSupportedOfThree` | assets/js/i18n.js:11-35 | the reference search over three signals tries them in order and falls back to `en` |
| `Language.ResolveIsFirstSupported` | assets/js/i18n.js:11-35 | resolution equals the first supported signal among query, storage and the browser's primary subtag, or `en` |
| `Language.LocaleCaseInsensitive` | assets/js/i18n.js:18 | two `navigator.language` values that differ only in letter case resolve to the same language |
| `Language.UpperCaseLocale` | assets/js/i18n.js:18-32 | `PT-BR` resolves to `pt` |
| `Language.TableLocale` | assets/js/i18n.js:18-21 | `zh-TW` resolves to `zh` through the table |
| `Language.UnmappedRegion` | assets/js/i18n.js:34 | `en-AU`, not in the table, resolves to its primary subtag `en` |
| `Language.NoLocale` | assets/js/i18n.js:11-18 | with no supported code in the query or in storage, a browser whose locale fields are absent or empty resolves to `en` |
| `Language.IsRTL` | assets/js/i18n.js:37 | a right-to-left code is a supported code |
| `Language.RTLOnlyArabic` | assets/js/i18n.js:37 | `isRTL` holds exactly for `ar`, a supported code |
| `KeyPath.Walk` | assets/js/i18n.js:51 | a walk that takes at least one step and succeeds starts at an object that has the first segment as an entry |
| `KeyPath.Lookup` | assets/js/i18n.js:51-52 | the lookup all three passes share (also lines 66 and 74): a key has at least one segment, so only an object dictionary yields a string |
| `KeyPath.WalkTrail` | assets/js/i18n.js:51 | the walk succeeds exactly when each segment names an entry of an object on the way, and it ends at the last value of that trail |
| `KeyPath.LookupTrail` | assets/js/i18n.js:51-52 | a key yields `v` exactly when its segments lead, object by object, to the string `v` |
| `KeyPath.WalkAppend` | assets/js/i18n.js:51 | walking a concatenated path is walking its parts in turn |
| `KeyPath.MissIsFinal` | assets/js/i18n.js:51 | once a segment misses, no longer key through it finds anything |
| `KeyPath.StringIsLeaf` | assets/js/i18n.js:51 | a key that goes past a string finds nothing |
| `KeyPath.SampleFound` | assets/js/i18n.js:51-52 | in `{"a":{"b":"X"}}`, `a.b` yields `X` |
| `KeyPath.SampleMissing` | assets/js/i18n.js:51-52 | `a.c` yields nothing |
| `KeyPath.SampleThroughString` | assets/js/i18n.js:51-52 | `a.b.c` yields nothing, because it goes past a string |
| `KeyPath.SampleObject` | assets/js/i18n.js:51-52 | `a` yields nothing, because it ends on an object, not a string |
| `Dom.WithLanguage` | assets/js/i18n.js:39-44 | the root's `lang` is the code; `dir` is `rtl` iff `isRTL` and `ltr` otherwise; the `rtl` class is present iff `isRTL`; no other attribute or class changes |
| `Dom.WithLanguageIdempotent` | assets/js/i18n.js:39-44 | reapplying the same code changes nothing |
| `Dom.WithLanguageLastWins` | assets/js/i18n.js:39-44 | the last code applied alone decides the root's language state |
| `Dom.Root.SetLangAttributes` | assets/js/i18n.js:39-44 | the root's new state is `WithLanguage` of the old one |
| `Dom.MarkedPass` | assets/js/i18n.js:49-60 | the `data-i18n` callback writes the text or the attributes, never both |
| `Dom.PlaceholderPass` | assets/js/i18n.js:65-67 | the placeholder callback never changes the text |
| `Dom.TitlePass` | assets/js/i18n.js:73-75 | the title update never changes an attribute |
| `Dom.Translated` | assets/js/i18n.js:46-77 | after the three passes an element has gained at most the lower-cased target attribute and `placeholder`; on the title node a title hit decides the text |
| `Dom.MarkedPassEffect` | assets/js/i18n.js:48-61 | the `data-i18n` pass changes nothing unless the key is non-empty and yields a string; with a non-empty `data-i18n-attr` it writes only that attribute, with the name lower-cased, and keeps the text; otherwise it writes only the text |
| `Dom.PlaceholderPassEffect` | assets/js/i18n.js:64-68 | the placeholder pass writes only `placeholder`, and only when the lookup yields a string |
| `Dom.TitlePassEffect` | assets/js/i18n.js:71-76 | the title pass writes only the text, and only when the lookup yields a string |
| `Dom.MarkedPlaceholderIdempotent` | assets/js/i18n.js:48-68 | running the first two passes again after they have run changes nothing |
| `Dom.TranslatedIdempotent` | assets/js/i18n.js:46-77 | translating an already translated element with the same dictionary changes nothing |
| `Dom.MarkedPlaceholderCommute` | assets/js/i18n.js:48-68 | the first two passes commute unless `data-i18n-attr` names `placeholder` in some letter case |
| `Dom.MixedCasePlaceholder` | assets/js/i18n.js:56 | `data-i18n-attr="Placeholder"` targets the `placeholder` attribute |
| `Dom.MarkedTitleCommute` | assets/js/i18n.js:48-76 | the `data-i18n` pass and the title pass commute |
| `Dom.PlaceholderTitleCommute` | assets/js/i18n.js:64-76 | the placeholder pass and the title pass commute |
| `Dom.Element.ApplyMarked` | assets/js/i18n.js:49-60 | one element after the `data-i18n` callback is `MarkedPass` of its old state |
| `Dom.Element.ApplyPlaceholder` | assets/js/i18n.js:65-67 | one element after the placeholder callback is `PlaceholderPass` of its old state |
| `Dom.Element.ApplyTitle` | assets/js/i18n.js:73-75 | the title node after the title update is `TitlePass` of its old state |
| `Dom.ApplyMarkedAll` | assets/js/i18n.js:48-61 | every element ends as `MarkedPass` of its old state; values and listeners are unchanged |
| `Dom.ApplyPlaceholderAll` | assets/js/i18n.js:64-68 | every element ends as `PlaceholderPass` of its old state; values and listeners are unchanged |
| `Dom.FindTitle` | assets/js/i18n.js:71 | `querySelector("title[data-i18n]")` finds the first `<title>` carrying `data-i18n`, or reports that there is none |
| `Dom.ApplyTitleNode` | assets/js/i18n.js:71-76 | only the title node changes, as `TitlePass` says |
| `Dom.ApplyTranslations` | assets/js/i18n.js:46-77 | every element ends as its three passes in order make it; no value or listener changes |
| `Navigation.GetParam` | assets/js/i18n.js:6-9 | `params.get` yields the value of the first pair with the name, and nothing only when no pair has the name |
| `Navigation.RemoveParam` | assets/js/i18n.js:106 | dropping the pairs with a name leaves none with it; every other name keeps its first value and all its values in order |
| `Navigation.RemoveAbsent` | assets/js/i18n.js:106 | dropping a name no pair carries changes nothing |
| `Navigation.SetParam` | assets/js/i18n.js:106 | after `searchParams.set` the new pair is present |
| `Navigation.SetParamKeepsPlace` | assets/js/i18n.js:106 | `searchParams.set` writes the value in the place of the first pair with the name, after the same pairs as before |
| `Navigation.SetParamAppends` | assets/js/i18n.js:106 | without a pair of that name, `searchParams.set` appends the pair at the end |
| `Navigation.SetParamSpec` | assets/js/i18n.js:106 | after `searchParams.set`, `get` yields the new value, exactly one pair has the name, and the pairs with other names are the same pairs in the same order |
| `Navigation.OnSwitcherChange` | assets/js/i18n.js:102-108 | an unsupported choice does not navigate; a supported one navigates to the same address and fragment with `lang` equal to the choice and the other query pairs unchanged and in the same order; the query is `SetParam` of the current one, so exactly one `lang` pair is left, in the place of the first one or appended |
| `Navigation.ReloadResolvesToChoice` | assets/js/i18n.js:12-13 | the page the switcher opens resolves to the chosen language, whatever storage and the browser say |
| `Localizer.Storage.GetItem` | assets/js/i18n.js:15 | `getItem` yields nothing exactly when the key is not stored (with `PreferenceSticks`: a stored code is read back on the next load) |
| `Localizer.Storage.SetItem` | assets/js/i18n.js:90 | `setItem` updates exactly the named key: `getItem` then reads the new value there and the old values everywhere else |
| `Localizer.DictionaryUrl` | assets/js/i18n.js:95 | the dictionary address starts with the prefix (with `DictionaryUrlInjective` and `DictionaryUnderBase`: one address per code, under the configured base) |
| `Localizer.DictionaryUrlInjective` | assets/js/i18n.js:95 | different languages are fetched from different addresses |
| `Localizer.PrefixAsWritten` | assets/js/i18n.js:93-94 | as written, the prefix is empty when the script ran during loading, because `init` then runs later as the `DOMContentLoaded` handler (lines 116-117); otherwise it is the configured base |
| `Localizer.Prefix` | assets/js/i18n.js:93-94 | the prefix read while the script runs is empty exactly when no non-empty `data-base` is configured |
| `Localizer.PrefixIgnoredWhileLoading` | assets/js/i18n.js:93-95 | as written, when the script ran during loading the dictionary is fetched from `/locales/<code>/common.json`, which differs from the address under a configured base |
| `Localizer.DictionaryUnderBase` | assets/js/i18n.js:93-95 | with the prefix read while the script runs, the dictionary address starts with the configured base |
| `Localizer.FindSwitcher` | assets/js/i18n.js:99 | finds the first `[data-i18n-switcher]` element, or reports that there is none |
| `Localizer.WireSwitcher` | assets/js/i18n.js:99-109 | only the switcher changes: its value becomes the language and its change listener is installed |
| `Localizer.Init` | assets/js/i18n.js:86-113 | the resolved language is supported and persisted under `site_lang`; the root gets its attributes; a failed load changes no element; a successful load translates every element and wires the switcher |
| `Localizer.PreferenceSticks` | assets/js/i18n.js:15-16 | without a `lang` parameter, the next page load resolves to the language just persisted |

## Findings

| source | as written | input that shows it | evidently intended | confidence | as-written member | corrected member |
|---|---|---|---|---|---|---|
| assets/js/i18n.js:93 | `init` reads `document.currentScript`, which is null when `init` runs as the `DOMContentLoaded` handler (lines 116-117), so `data-base` is ignored | the script tag has `data-base="/site"` and runs while the document is still loading: the dictionary is fetched from `/locales/en/common.json` | read `data-base` while the script itself runs, so the fetch goes under the configured base | medium, not executed | `Localizer.PrefixIgnoredWhileLoading` | `Localizer.DictionaryUnderBase` |

## Left out

- The network fetch, its promise chain and `console.error` (lines 79-84, 95-113) are replaced by a map from address to parsed body. An address that is not in the map is a failed load. A failed load leaves every element untouched and does not wire the switcher.
- Parsing and serialising the page address are left out (lines 6-9, 105-107). `Navigation.Url` holds the query pairs already parsed, and navigation is the returned address.
- The `DOMContentLoaded` wiring (lines 116-120) is left out: `Localizer.Init` is one call.
- `Localizer.Init` fetches under the corrected prefix, `Localizer.Prefix`, not the prefix as written. When the script ran during loading the code fetches from the site root instead (`Localizer.PrefixAsWritten`, the finding above).
- DOM selector semantics are left out. A selector is a predicate on the element's markers, and the document is a sequence of distinct elements.
- `Dom.ApplyTranslations` assumes that no element marked for the placeholder pass and no switcher lies inside an element whose text the `data-i18n` pass replaces. The document has no nesting, so it does not capture that `textContent = value` (line 58) removes an element's children from the page. In the browser such a descendant is no longer found by the later `querySelectorAll` (line 64) or `querySelector` (line 99), so it gets no placeholder and is not wired as the switcher.
- Markers are read-only fields kept apart from the other attributes. A `data-i18n-attr` that names a marker attribute is not modelled. Neither is a name that `setAttribute` rejects with an exception, which would end the promise chain early.
- `Strings.ToLower`: only the ASCII letters are lower-cased. JavaScript lower-cases all of Unicode. For attribute names of HTML elements it is exact: there `setAttribute` lower-cases only the ASCII letters. On an SVG or other non-HTML element `setAttribute` keeps the name's case, and the model lower-cases it all the same; the page is taken to hold HTML elements only.
- JavaScript object quirks in the lookups are left out: a numeric segment indexing into a string, and inherited prototype properties such as `constructor`. Arrays inside a dictionary are not modelled either: `KeyPath.Dict` has strings, objects and `Other` for the remaining JSON values. For the locale table, a prototype key is collapsed to `en` by the guard on line 88, which is also what the model gives.
- The root's class list is a set that stands for its `class` attribute, which `Dom.RootState.attributes` does not hold. The order of its tokens is not modelled.
- `Localizer.WireSwitcher`: setting a `<select>`'s value to a code it has no option for leaves the value empty in a browser. Here the value becomes the code.
- `localStorage` access that throws (for example, storage disabled) is not modelled.
