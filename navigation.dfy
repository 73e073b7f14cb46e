/**
 * The page address as the localiser uses it: reading the `lang` query
 * parameter, and the language switcher's guarded navigation to the same
 * address with `lang` set to the chosen code.
 */
module Navigation {
  import opened Wrappers
  import opened Language
  import opened Dom

  /** A query string's name-value pairs, in order (`URLSearchParams`). */
  type Params = seq<(string, string)>

  /** A page address: the part before the query, the query pairs and the fragment. */
  datatype Url = Url(base: string, query: Params, fragment: string)

  /** No pair before `i` carries the name. */
  predicate FirstNamed(ps: Params, name: string, i: nat)
    requires i <= |ps|
  {
    forall j :: 0 <= j < i ==> ps[j].0 != name
  }

  /** `params.get(name)`: the value of the first pair with that name. */
  function GetParam(ps: Params, name: string): (r: Option<string>)
    ensures r.Some? ==> exists i :: 0 <= i < |ps| && ps[i] == (name, r.value) && FirstNamed(ps, name, i)
    ensures r.None? ==> forall i :: 0 <= i < |ps| ==> ps[i].0 != name
  {
    if ps == [] then None
    else if ps[0].0 == name then Some(ps[0].1)
    else GetParam(ps[1..], name)
  }

  /** `params.getAll(name)`: the values of the pairs with that name, in order. */
  function Values(ps: Params, name: string): seq<string> {
    if ps == [] then []
    else (if ps[0].0 == name then [ps[0].1] else []) + Values(ps[1..], name)
  }

  /** The pairs without any named `name`; every other name keeps its values, in order. */
  function RemoveParam(ps: Params, name: string): (r: Params)
    ensures forall i :: 0 <= i < |r| ==> r[i].0 != name
    ensures forall n :: n != name ==> GetParam(r, n) == GetParam(ps, n)
    ensures forall n :: n != name ==> Values(r, n) == Values(ps, n)
  {
    if ps == [] then []
    else if ps[0].0 == name then RemoveParam(ps[1..], name)
    else
      var rest := RemoveParam(ps[1..], name);
      assert ([ps[0]] + rest)[1..] == rest;
      [ps[0]] + rest
  }

  /** Removing a name that no pair carries leaves the pairs as they are. */
  lemma {:induction false} RemoveAbsent(ps: Params, name: string)
    requires forall i :: 0 <= i < |ps| ==> ps[i].0 != name
    ensures RemoveParam(ps, name) == ps
  {
    if ps != [] {
      assert ps[0].0 != name;
      RemoveAbsent(ps[1..], name);
    }
  }

  /**
   * `params.set(name, value)`: the first pair named `name` takes the value and
   * the later ones are dropped; without one, the pair is appended.
   */
  function SetParam(ps: Params, name: string, value: string): (r: Params)
    ensures (name, value) in r
  {
    if ps == [] then [(name, value)]
    else if ps[0].0 == name then [(name, value)] + RemoveParam(ps[1..], name)
    else [ps[0]] + SetParam(ps[1..], name, value)
  }

  /** How many pairs carry the name. */
  function Count(ps: Params, name: string): nat {
    if ps == [] then 0 else (if ps[0].0 == name then 1 else 0) + Count(ps[1..], name)
  }

  lemma {:induction false} CountAbsent(ps: Params, name: string)
    requires forall i :: 0 <= i < |ps| ==> ps[i].0 != name
    ensures Count(ps, name) == 0
  {
    if ps != [] {
      assert ps[0].0 != name;
      CountAbsent(ps[1..], name);
    }
  }

  /** `set` writes the value in the place of the first pair that has the name, after the same pairs as before. */
  lemma {:induction false} SetParamKeepsPlace(ps: Params, name: string, value: string, i: nat)
    requires i < |ps| && ps[i].0 == name && FirstNamed(ps, name, i)
    ensures var r := SetParam(ps, name, value); i < |r| && r[..i] == ps[..i] && r[i] == (name, value)
  {
    if i > 0 {
      assert ps[0].0 != name;
      assert FirstNamed(ps[1..], name, i - 1);
      SetParamKeepsPlace(ps[1..], name, value, i - 1);
      var r := SetParam(ps, name, value);
      assert r == [ps[0]] + SetParam(ps[1..], name, value);
      assert r[..i] == [ps[0]] + SetParam(ps[1..], name, value)[..i - 1];
      assert ps[..i] == [ps[0]] + ps[1..][..i - 1];
    }
  }

  /** Without a pair of that name, `set` appends the pair at the end. */
  lemma {:induction false} SetParamAppends(ps: Params, name: string, value: string)
    requires forall i :: 0 <= i < |ps| ==> ps[i].0 != name
    ensures SetParam(ps, name, value) == ps + [(name, value)]
  {
    if ps != [] {
      assert ps[0].0 != name;
      SetParamAppends(ps[1..], name, value);
      assert ps == [ps[0]] + ps[1..];
    }
  }

  /**
   * After `set`, `get` gives the new value, exactly one pair carries the name,
   * and the pairs of every other name are the same pairs in the same order.
   */
  lemma {:induction false} SetParamSpec(ps: Params, name: string, value: string)
    ensures GetParam(SetParam(ps, name, value), name) == Some(value)
    ensures forall n :: n != name ==> GetParam(SetParam(ps, name, value), n) == GetParam(ps, n)
    ensures Count(SetParam(ps, name, value), name) == 1
    ensures RemoveParam(SetParam(ps, name, value), name) == RemoveParam(ps, name)
  {
    var r := SetParam(ps, name, value);
    if ps == [] {
    } else if ps[0].0 == name {
      var rest := RemoveParam(ps[1..], name);
      assert r[1..] == rest;
      CountAbsent(rest, name);
      RemoveAbsent(rest, name);
    } else {
      SetParamSpec(ps[1..], name, value);
      assert r[1..] == SetParam(ps[1..], name, value);
    }
  }

  /**
   * The switcher's `change` handler: no navigation for an unsupported choice;
   * otherwise the current address with `lang` set to the choice.
   */
  method OnSwitcherChange(sel: Element, current: Url) returns (target: Option<Url>)
    requires sel.listening
    ensures target.None? <==> !IsSupported(sel.value)
    ensures target.Some? ==> target.value.base == current.base && target.value.fragment == current.fragment
    ensures target.Some? ==> GetParam(target.value.query, "lang") == Some(sel.value)
    ensures target.Some? ==> forall n :: n != "lang" ==> GetParam(target.value.query, n) == GetParam(current.query, n)
    ensures target.Some? ==> RemoveParam(target.value.query, "lang") == RemoveParam(current.query, "lang")
    ensures target.Some? ==> target.value.query == SetParam(current.query, "lang", sel.value)
    ensures target.Some? ==> Count(target.value.query, "lang") == 1
  {
    var chosen := sel.value;
    if !IsSupported(chosen) {
      return None;
    }
    SetParamSpec(current.query, "lang", chosen);
    target := Some(current.(query := SetParam(current.query, "lang", chosen)));
  }

  /** The page the switcher navigates to resolves to the chosen language, whatever storage and the browser say. */
  lemma ReloadResolvesToChoice(current: Url, chosen: string, stored: Option<string>, nav: Navigator)
    requires IsSupported(chosen)
    ensures ResolveLanguage(GetParam(SetParam(current.query, "lang", chosen), "lang"), stored, nav) == chosen
  {
    SetParamSpec(current.query, "lang", chosen);
    ParamWins(chosen);
  }
}
