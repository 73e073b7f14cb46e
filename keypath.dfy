/**
 * Translation dictionaries and the dot-separated key-path lookup that the
 * three substitution passes share (`key.split(".").reduce(...)`).
 */
module KeyPath {
  import opened Wrappers
  import opened Strings

  /**
   * A parsed dictionary: a string, a nested object, or any other JSON value
   * (number, boolean, null), which is neither a string nor traversable.
   */
  datatype Dict = Str(s: string) | Map(entries: map<string, Dict>) | Other

  /**
   * The `reduce` over the segments: step into the named entry of each nested
   * object; a missing entry or a non-object on the way gives nothing.
   */
  function Walk(d: Dict, path: seq<string>): (r: Option<Dict>)
    ensures path != [] && r.Some? ==> d.Map? && path[0] in d.entries
    decreases |path|
  {
    if path == [] then Some(d)
    else match d
      case Map(m) => if path[0] in m then Walk(m[path[0]], path[1..]) else None
      case _ => None
  }

  /** A segment-by-segment description of a successful walk: the objects passed through. */
  ghost predicate IsTrail(d: Dict, path: seq<string>, trail: seq<Dict>)
  {
    && |trail| == |path| + 1
    && trail[0] == d
    && forall i :: 0 <= i < |path| ==>
         trail[i].Map? && path[i] in trail[i].entries && trail[i].entries[path[i]] == trail[i + 1]
  }

  /**
   * The lookup of one marker's key: a value only when the walk ends on a
   * string (`typeof value === "string"`). Every key has at least one
   * segment, so only an object dictionary yields anything.
   */
  function Lookup(d: Dict, key: string): (r: Option<string>)
    ensures r.Some? ==> d.Map?
  {
    match Walk(d, Split(key, '.'))
    case Some(Str(v)) => Some(v)
    case _ => None
  }

  /**
   * A key yields `v` exactly when its segments lead, object by object, to the
   * string `v`.
   */
  lemma LookupTrail(d: Dict, key: string, v: string)
    ensures Lookup(d, key) == Some(v) <==>
      exists trail :: IsTrail(d, Split(key, '.'), trail) && trail[|trail| - 1] == Str(v)
  {
    WalkTrail(d, Split(key, '.'));
  }

  /** A walk succeeds exactly when every segment names an entry of an object on the way. */
  lemma {:induction false} WalkTrail(d: Dict, path: seq<string>)
    ensures forall trail :: IsTrail(d, path, trail) ==> Walk(d, path) == Some(trail[|trail| - 1])
    ensures Walk(d, path).Some? ==> exists trail :: IsTrail(d, path, trail) && trail[|trail| - 1] == Walk(d, path).value
  {
    forall trail | IsTrail(d, path, trail)
      ensures Walk(d, path) == Some(trail[|trail| - 1])
    {
      WalkFollowsTrail(d, path, trail);
    }
    if Walk(d, path).Some? {
      TrailOfWalk(d, path);
    }
  }

  /** A walk along a trail ends at the trail's last value. */
  lemma {:induction false} WalkFollowsTrail(d: Dict, path: seq<string>, trail: seq<Dict>)
    requires IsTrail(d, path, trail)
    ensures Walk(d, path) == Some(trail[|trail| - 1])
    decreases |path|
  {
    if path != [] {
      assert trail[0].Map? && path[0] in trail[0].entries;
      var next := d.entries[path[0]];
      assert IsTrail(next, path[1..], trail[1..]);
      WalkFollowsTrail(next, path[1..], trail[1..]);
    }
  }

  /** A successful walk has a trail that ends where the walk does. */
  lemma {:induction false} TrailOfWalk(d: Dict, path: seq<string>)
    requires Walk(d, path).Some?
    ensures exists trail :: IsTrail(d, path, trail) && trail[|trail| - 1] == Walk(d, path).value
    decreases |path|
  {
    if path == [] {
      assert IsTrail(d, path, [d]);
    } else {
      var next := d.entries[path[0]];
      TrailOfWalk(next, path[1..]);
      var tail :| IsTrail(next, path[1..], tail) && tail[|tail| - 1] == Walk(next, path[1..]).value;
      assert IsTrail(d, path, [d] + tail);
    }
  }

  /** Walking a concatenated path is walking its two parts in turn. */
  lemma {:induction false} WalkAppend(d: Dict, p: seq<string>, q: seq<string>)
    ensures Walk(d, p + q) == match Walk(d, p) case Some(e) => Walk(e, q) case None => None
    decreases |p|
  {
    if p == [] {
      assert p + q == q;
    } else {
      assert (p + q)[0] == p[0];
      assert (p + q)[1..] == p[1..] + q;
      if d.Map? && p[0] in d.entries {
        WalkAppend(d.entries[p[0]], p[1..], q);
      }
    }
  }

  /** Once a walk misses, no longer path through it can find anything. */
  lemma MissIsFinal(d: Dict, p: seq<string>, q: seq<string>)
    requires Walk(d, p).None?
    ensures Walk(d, p + q).None?
  {
    WalkAppend(d, p, q);
  }

  /** Past a string there is nothing more to find. */
  lemma StringIsLeaf(d: Dict, p: seq<string>, v: string, q: seq<string>)
    requires Walk(d, p) == Some(Str(v)) && q != []
    ensures Walk(d, p + q).None?
  {
    WalkAppend(d, p, q);
  }

  /** The dictionary `{"a": {"b": "X"}}`. */
  function Sample(): Dict {
    Map(map["a" := Map(map["b" := Str("X")])])
  }

  /** `a.b` is found. */
  lemma SampleFound()
    ensures Lookup(Sample(), "a.b") == Some("X")
  {
    assert Join(["a", "b"], '.') == "a.b";
    SplitJoin(["a", "b"], '.');
  }

  /** `a.c` names no entry. */
  lemma SampleMissing()
    ensures Lookup(Sample(), "a.c") == None
  {
    assert Join(["a", "c"], '.') == "a.c";
    SplitJoin(["a", "c"], '.');
  }

  /** `a.b.c` passes through the string at `a.b`. */
  lemma SampleThroughString()
    ensures Lookup(Sample(), "a.b.c") == None
  {
    assert Join(["a", "b", "c"], '.') == "a.b.c";
    SplitJoin(["a", "b", "c"], '.');
  }

  /** `a` ends on an object, which is not a string. */
  lemma SampleObject()
    ensures Lookup(Sample(), "a") == None
  {
    assert Join(["a"], '.') == "a";
    SplitJoin(["a"], '.');
  }
}
