/**
 * The document as the localiser sees it: the root element's language and
 * direction, and the marked elements whose text and attributes the three
 * substitution passes of `applyTranslations` rewrite in place.
 */
module Dom {
  import opened Wrappers
  import opened Language
  import opened KeyPath
  import opened Strings

  // ---------------------------------------------------------------------------
  // The root element

  /**
   * What `setLangAttributes` touches on the root: its attributes and class
   * tokens. The `class` attribute is not among `attributes`: the class list
   * stands for it, so `classList.toggle` changes `classes` alone.
   */
  datatype RootState = RootState(attributes: map<string, string>, classes: set<string>)

  /** The root after `setLangAttributes(lang)`. */
  function WithLanguage(s: RootState, lang: string): (r: RootState)
    ensures "lang" in r.attributes && r.attributes["lang"] == lang
    ensures "dir" in r.attributes
    ensures r.attributes["dir"] == "rtl" <==> IsRTL(lang)
    ensures r.attributes["dir"] == "ltr" <==> !IsRTL(lang)
    ensures "rtl" in r.classes <==> IsRTL(lang)
    ensures forall a :: a != "lang" && a != "dir" ==>
      (a in r.attributes <==> a in s.attributes) && (a in s.attributes ==> r.attributes[a] == s.attributes[a])
    ensures forall c :: c != "rtl" ==> (c in r.classes <==> c in s.classes)
  {
    RootState(
      s.attributes["lang" := lang]["dir" := if IsRTL(lang) then "rtl" else "ltr"],
      if IsRTL(lang) then s.classes + {"rtl"} else s.classes - {"rtl"})
  }

  /** Reapplying the same language changes nothing. */
  lemma WithLanguageIdempotent(s: RootState, lang: string)
    ensures WithLanguage(WithLanguage(s, lang), lang) == WithLanguage(s, lang)
  {
  }

  /** The last language applied decides the whole observable state. */
  lemma WithLanguageLastWins(s: RootState, first: string, second: string)
    ensures WithLanguage(WithLanguage(s, first), second) == WithLanguage(s, second)
  {
  }

  /** `document.documentElement`. */
  class Root {
    var attributes: map<string, string>   // every attribute except `class`
    var classes: set<string>              // the tokens of the `class` attribute

    constructor(attributes: map<string, string>, classes: set<string>)
      ensures State() == RootState(attributes, classes)
    {
      this.attributes := attributes;
      this.classes := classes;
    }

    function State(): RootState
      reads this
    {
      RootState(attributes, classes)
    }

    /** `setLangAttributes`: the `lang` and `dir` attributes, then `classList.toggle("rtl", ...)`. */
    method SetLangAttributes(lang: string)
      modifies this
      ensures State() == WithLanguage(old(State()), lang)
    {
      attributes := attributes["lang" := lang];
      attributes := attributes["dir" := if IsRTL(lang) then "rtl" else "ltr"];
      if IsRTL(lang) {
        classes := classes + {"rtl"};
      } else {
        classes := classes - {"rtl"};
      }
    }
  }

  // ---------------------------------------------------------------------------
  // Marked elements

  /** The markers an element carries; the localiser only reads them. */
  datatype Markers = Markers(
    tag: string,                      // the lower-case tag name
    key: Option<string>,              // data-i18n
    attr: Option<string>,             // data-i18n-attr
    placeholderKey: Option<string>,   // data-i18n-placeholder
    switcher: bool)                   // data-i18n-switcher

  /** What the substitution passes may rewrite: the text content and the other attributes. */
  datatype ElementState = ElementState(text: string, attributes: map<string, string>)

  /** The two attribute maps agree everywhere except, possibly, at `name`. */
  ghost predicate AgreeExcept(a: map<string, string>, b: map<string, string>, name: string) {
    forall n :: n != name ==> (n in a <==> n in b) && (n in a ==> a[n] == b[n])
  }

  /**
   * The attribute the `data-i18n` pass writes instead of the text: a non-empty
   * `data-i18n-attr`, lower-cased as `setAttribute` does on an HTML element.
   */
  function TargetAttribute(m: Markers): Option<string> {
    if Truthy(m.attr) then Some(ToLower(m.attr.value)) else None
  }

  /** The string the `data-i18n` pass substitutes: absent for an empty key or a failed lookup. */
  function MarkedValue(dict: Dict, m: Markers): Option<string> {
    if Truthy(m.key) then Lookup(dict, m.key.value) else None
  }

  /** The `data-i18n` pass on one element. */
  function MarkedPass(dict: Dict, m: Markers, c: ElementState): (r: ElementState)
    ensures r.text == c.text || r.attributes == c.attributes
  {
    match MarkedValue(dict, m)
    case None => c
    case Some(v) =>
      match TargetAttribute(m)
      case Some(a) => c.(attributes := c.attributes[a := v])
      case None => c.(text := v)
  }

  /**
   * What the `data-i18n` pass does: nothing unless the lookup yields a string;
   * with a target attribute only that attribute, and otherwise only the text.
   */
  lemma MarkedPassEffect(dict: Dict, m: Markers, c: ElementState)
    ensures MarkedValue(dict, m).None? ==> MarkedPass(dict, m, c) == c
    ensures TargetAttribute(m).Some? ==>
      var r := MarkedPass(dict, m, c);
      r.text == c.text && AgreeExcept(c.attributes, r.attributes, TargetAttribute(m).value)
    ensures TargetAttribute(m).Some? && MarkedValue(dict, m).Some? ==>
      var r := MarkedPass(dict, m, c);
      TargetAttribute(m).value in r.attributes && r.attributes[TargetAttribute(m).value] == MarkedValue(dict, m).value
    ensures TargetAttribute(m).None? ==> MarkedPass(dict, m, c).attributes == c.attributes
    ensures TargetAttribute(m).None? && MarkedValue(dict, m).Some? ==> MarkedPass(dict, m, c).text == MarkedValue(dict, m).value
  {
  }

  /** The string the placeholder pass substitutes; an empty key is looked up like any other. */
  function PlaceholderValue(dict: Dict, m: Markers): Option<string> {
    if m.placeholderKey.Some? then Lookup(dict, m.placeholderKey.value) else None
  }

  /** The `data-i18n-placeholder` pass on one element. */
  function PlaceholderPass(dict: Dict, m: Markers, c: ElementState): (r: ElementState)
    ensures r.text == c.text
  {
    match PlaceholderValue(dict, m)
    case None => c
    case Some(v) => c.(attributes := c.attributes["placeholder" := v])
  }

  /** The placeholder pass writes the `placeholder` attribute and nothing else, and only on a hit. */
  lemma PlaceholderPassEffect(dict: Dict, m: Markers, c: ElementState)
    ensures AgreeExcept(c.attributes, PlaceholderPass(dict, m, c).attributes, "placeholder")
    ensures PlaceholderValue(dict, m).None? ==> PlaceholderPass(dict, m, c) == c
    ensures PlaceholderValue(dict, m).Some? ==>
      var r := PlaceholderPass(dict, m, c);
      "placeholder" in r.attributes && r.attributes["placeholder"] == PlaceholderValue(dict, m).value
  {
  }

  /** The string the title pass substitutes; an empty key is looked up like any other. */
  function TitleValue(dict: Dict, m: Markers): Option<string> {
    if m.key.Some? then Lookup(dict, m.key.value) else None
  }

  /** The title pass on the title node. */
  function TitlePass(dict: Dict, m: Markers, c: ElementState): (r: ElementState)
    ensures r.attributes == c.attributes
  {
    match TitleValue(dict, m)
    case None => c
    case Some(v) => c.(text := v)
  }

  /** The title pass writes the text and nothing else, and only on a hit. */
  lemma TitlePassEffect(dict: Dict, m: Markers, c: ElementState)
    ensures TitleValue(dict, m).None? ==> TitlePass(dict, m, c) == c
    ensures TitleValue(dict, m).Some? ==> TitlePass(dict, m, c).text == TitleValue(dict, m).value
  {
  }

  /** An element `title[data-i18n]` would select. */
  predicate IsTitle(m: Markers) {
    m.tag == "title" && m.key.Some?
  }

  /**
   * The element of one page, as all three passes leave it: at most the
   * target attribute and `placeholder` are added, and on the title node a
   * title hit has the last word on the text.
   */
  function Translated(dict: Dict, m: Markers, isTitleNode: bool, c: ElementState): (r: ElementState)
    ensures r.attributes.Keys <= c.attributes.Keys + {"placeholder"} +
      (if TargetAttribute(m).Some? then {TargetAttribute(m).value} else {})
    ensures isTitleNode && TitleValue(dict, m).Some? ==> r.text == TitleValue(dict, m).value
  {
    var afterMarked := MarkedPass(dict, m, c);
    var afterPlaceholder := PlaceholderPass(dict, m, afterMarked);
    if isTitleNode then TitlePass(dict, m, afterPlaceholder) else afterPlaceholder
  }

  /** The `data-i18n` and placeholder passes together, applied twice, act once. */
  lemma MarkedPlaceholderIdempotent(dict: Dict, m: Markers, c: ElementState)
    ensures var once := PlaceholderPass(dict, m, MarkedPass(dict, m, c));
      PlaceholderPass(dict, m, MarkedPass(dict, m, once)) == once
  {
    var once := PlaceholderPass(dict, m, MarkedPass(dict, m, c));
    match MarkedValue(dict, m)
    case None =>
    case Some(v) =>
      match TargetAttribute(m)
      case None =>
      case Some(a) =>
        match PlaceholderValue(dict, m)
        case None =>
          assert once.attributes[a := v] == once.attributes;
        case Some(p) =>
          assert once.attributes[a := v]["placeholder" := p] == once.attributes;
  }

  /** Translating an already translated element changes nothing. */
  lemma TranslatedIdempotent(dict: Dict, m: Markers, isTitleNode: bool, c: ElementState)
    ensures Translated(dict, m, isTitleNode, Translated(dict, m, isTitleNode, c)) == Translated(dict, m, isTitleNode, c)
  {
    var placed := PlaceholderPass(dict, m, MarkedPass(dict, m, c));
    MarkedPlaceholderIdempotent(dict, m, c);
    if isTitleNode {
      var once := TitlePass(dict, m, placed);
      MarkedTitleCommute(dict, m, placed);
      PlaceholderTitleCommute(dict, m, MarkedPass(dict, m, placed));
    }
  }

  /**
   * The passes commute on one element unless `data-i18n-attr` names
   * `placeholder` in any letter case, the one attribute two passes can both write.
   */
  lemma MarkedPlaceholderCommute(dict: Dict, m: Markers, c: ElementState)
    requires TargetAttribute(m) != Some("placeholder")
    ensures PlaceholderPass(dict, m, MarkedPass(dict, m, c)) == MarkedPass(dict, m, PlaceholderPass(dict, m, c))
  {
    if MarkedValue(dict, m).Some? && TargetAttribute(m).Some? && PlaceholderValue(dict, m).Some? {
      var a := TargetAttribute(m).value;
      var v := MarkedValue(dict, m).value;
      var p := PlaceholderValue(dict, m).value;
      assert c.attributes[a := v]["placeholder" := p] == c.attributes["placeholder" := p][a := v];
    }
  }

  /** `data-i18n-attr="Placeholder"` targets the same attribute as the placeholder pass. */
  lemma MixedCasePlaceholder(m: Markers)
    requires m.attr == Some("Placeholder")
    ensures TargetAttribute(m) == Some("placeholder")
  {
    var l := ToLower("Placeholder");
    assert l[0] == 'p' && l[1] == 'l' && l[2] == 'a' && l[3] == 'c' && l[4] == 'e' && l[5] == 'h';
    assert l[6] == 'o' && l[7] == 'l' && l[8] == 'd' && l[9] == 'e' && l[10] == 'r';
    assert l == "placeholder";
  }

  /** The title pass and the `data-i18n` pass commute: on the title node they write the same text. */
  lemma MarkedTitleCommute(dict: Dict, m: Markers, c: ElementState)
    ensures TitlePass(dict, m, MarkedPass(dict, m, c)) == MarkedPass(dict, m, TitlePass(dict, m, c))
  {
  }

  /** The title pass and the placeholder pass touch different parts of an element. */
  lemma PlaceholderTitleCommute(dict: Dict, m: Markers, c: ElementState)
    ensures TitlePass(dict, m, PlaceholderPass(dict, m, c)) == PlaceholderPass(dict, m, TitlePass(dict, m, c))
  {
  }

  /** A page element. */
  class Element {
    const markers: Markers
    var text: string
    var attributes: map<string, string>
    var value: string       // a form control's current value (the switcher's selection)
    var listening: bool     // whether the switcher's change listener is installed

    constructor(markers: Markers, text: string, attributes: map<string, string>, value: string)
      ensures this.markers == markers && State() == ElementState(text, attributes)
      ensures this.value == value && !listening
    {
      this.markers := markers;
      this.text := text;
      this.attributes := attributes;
      this.value := value;
      this.listening := false;
    }

    function State(): ElementState
      reads this
    {
      ElementState(text, attributes)
    }

    /** The body of the `data-i18n` `forEach` for this element. */
    method ApplyMarked(dict: Dict)
      modifies this`text, this`attributes
      ensures State() == MarkedPass(dict, markers, old(State()))
    {
      var key := markers.key;
      if key.Some? && key.value != "" {
        var found := Lookup(dict, key.value);
        if found.Some? {
          var attr := markers.attr;
          if attr.Some? && attr.value != "" {
            attributes := attributes[ToLower(attr.value) := found.value];
          } else {
            text := found.value;
          }
        }
      }
    }

    /** The body of the `data-i18n-placeholder` `forEach` for this element. */
    method ApplyPlaceholder(dict: Dict)
      modifies this`attributes
      ensures State() == PlaceholderPass(dict, markers, old(State()))
    {
      var key := markers.placeholderKey;
      if key.Some? {
        var found := Lookup(dict, key.value);
        if found.Some? {
          attributes := attributes["placeholder" := found.value];
        }
      }
    }

    /** The title update, for the title node. */
    method ApplyTitle(dict: Dict)
      requires markers.key.Some?
      modifies this`text
      ensures State() == TitlePass(dict, markers, old(State()))
    {
      var found := Lookup(dict, markers.key.value);
      if found.Some? {
        text := found.value;
      }
    }
  }

  /** `querySelectorAll` yields each element once. */
  predicate Distinct(doc: seq<Element>) {
    forall i, j :: 0 <= i < j < |doc| ==> doc[i] != doc[j]
  }

  /** Is `doc[i]` the title node, the first element `title[data-i18n]` selects? */
  predicate IsTitleNode(doc: seq<Element>, i: int)
    requires 0 <= i < |doc|
  {
    IsTitle(doc[i].markers) && forall j :: 0 <= j < i ==> !IsTitle(doc[j].markers)
  }

  /** The elements other than the text and attributes are as they were. */
  twostate predicate SameControls(doc: seq<Element>)
    reads set e | e in doc
  {
    forall e :: e in doc ==> e.value == old(e.value) && e.listening == old(e.listening)
  }

  /** The `data-i18n` `forEach`. */
  method ApplyMarkedAll(dict: Dict, doc: seq<Element>)
    requires Distinct(doc)
    modifies set e | e in doc
    ensures forall i :: 0 <= i < |doc| ==> doc[i].State() == MarkedPass(dict, doc[i].markers, old(doc[i].State()))
    ensures SameControls(doc)
  {
    var i := 0;
    while i < |doc|
      invariant 0 <= i <= |doc|
      invariant forall k :: 0 <= k < i ==> doc[k].State() == MarkedPass(dict, doc[k].markers, old(doc[k].State()))
      invariant forall k :: i <= k < |doc| ==> doc[k].State() == old(doc[k].State())
      invariant SameControls(doc)
    {
      var el := doc[i];
      assert forall k :: 0 <= k < |doc| && k != i ==> doc[k] != el;
      el.ApplyMarked(dict);
      i := i + 1;
    }
  }

  /** The `data-i18n-placeholder` `forEach`. */
  method ApplyPlaceholderAll(dict: Dict, doc: seq<Element>)
    requires Distinct(doc)
    modifies set e | e in doc
    ensures forall i :: 0 <= i < |doc| ==> doc[i].State() == PlaceholderPass(dict, doc[i].markers, old(doc[i].State()))
    ensures SameControls(doc)
  {
    var i := 0;
    while i < |doc|
      invariant 0 <= i <= |doc|
      invariant forall k :: 0 <= k < i ==> doc[k].State() == PlaceholderPass(dict, doc[k].markers, old(doc[k].State()))
      invariant forall k :: i <= k < |doc| ==> doc[k].State() == old(doc[k].State())
      invariant SameControls(doc)
    {
      var el := doc[i];
      assert forall k :: 0 <= k < |doc| && k != i ==> doc[k] != el;
      el.ApplyPlaceholder(dict);
      i := i + 1;
    }
  }

  /** `document.querySelector("title[data-i18n]")`: the index of the title node, if any. */
  method FindTitle(doc: seq<Element>) returns (t: Option<nat>)
    ensures t.Some? ==> t.value < |doc| && IsTitleNode(doc, t.value)
    ensures t.None? ==> forall j :: 0 <= j < |doc| ==> !IsTitle(doc[j].markers)
  {
    var i := 0;
    while i < |doc|
      invariant 0 <= i <= |doc|
      invariant forall j :: 0 <= j < i ==> !IsTitle(doc[j].markers)
    {
      if IsTitle(doc[i].markers) {
        return Some(i);
      }
      i := i + 1;
    }
    return None;
  }

  /** The title update: the title node's text, if there is a title node. */
  method ApplyTitleNode(dict: Dict, doc: seq<Element>)
    requires Distinct(doc)
    modifies set e | e in doc
    ensures forall i :: 0 <= i < |doc| ==>
      doc[i].State() == if IsTitleNode(doc, i) then TitlePass(dict, doc[i].markers, old(doc[i].State())) else old(doc[i].State())
    ensures SameControls(doc)
  {
    var t := FindTitle(doc);
    if t.Some? {
      var title := doc[t.value];
      assert forall k :: 0 <= k < |doc| && k != t.value ==> doc[k] != title;
      title.ApplyTitle(dict);
      assert forall i :: 0 <= i < |doc| && IsTitleNode(doc, i) ==> i == t.value;
    }
  }

  /**
   * `applyTranslations`: the `data-i18n` pass over every element, then the
   * placeholder pass, then the title node. Each element ends as `Translated`
   * says; nothing outside the text and attributes changes.
   */
  method ApplyTranslations(dict: Dict, doc: seq<Element>)
    requires Distinct(doc)
    modifies set e | e in doc
    ensures forall i :: 0 <= i < |doc| ==>
      doc[i].State() == Translated(dict, doc[i].markers, IsTitleNode(doc, i), old(doc[i].State()))
    ensures SameControls(doc)
  {
    ApplyMarkedAll(dict, doc);
    ApplyPlaceholderAll(dict, doc);
    ApplyTitleNode(dict, doc);
  }
}
