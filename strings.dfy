/**
 * The two string operations of the localiser: `String.prototype.split` with a
 * one-character separator and `String.prototype.toLowerCase`.
 */
module Strings {

  /** `Join(segs, sep)` is `segs.join(sep)`; the inverse of `Split`. */
  function Join(segs: seq<string>, sep: char): string
    requires |segs| >= 1
    decreases |segs|
  {
    if |segs| == 1 then segs[0] else segs[0] + [sep] + Join(segs[1..], sep)
  }

  /** No segment contains the separator. */
  predicate SepFree(segs: seq<string>, sep: char) {
    forall i :: 0 <= i < |segs| ==> sep !in segs[i]
  }

  /**
   * `s.split(sep)`: the maximal separator-free pieces between separators.
   * The empty string splits into one empty piece, as in JavaScript.
   */
  function Split(s: string, sep: char): (r: seq<string>)
    ensures |r| >= 1
    ensures SepFree(r, sep)
    ensures Join(r, sep) == s
    decreases |s|
  {
    if s == [] then [""]
    else
      var rest := Split(s[1..], sep);
      if s[0] == sep then [""] + rest
      else
        var r := [[s[0]] + rest[0]] + rest[1..];
        assert Join(r, sep) == [s[0]] + Join(rest, sep) by {
          if |rest| > 1 {
            assert r[1..] == rest[1..];
          }
        }
        r
  }

  /** A joined sequence holds a separator right after its first piece. */
  lemma {:induction false} JoinHead(segs: seq<string>, sep: char)
    requires |segs| >= 1
    ensures segs[0] <= Join(segs, sep)
    ensures |segs| > 1 ==> |Join(segs, sep)| > |segs[0]| && Join(segs, sep)[|segs[0]|] == sep
    ensures |segs| > 1 ==> Join(segs, sep)[|segs[0]| + 1..] == Join(segs[1..], sep)
  {
  }

  /** Joining separator-free pieces is injective. */
  lemma {:induction false} JoinInjective(a: seq<string>, b: seq<string>, sep: char)
    requires |a| >= 1 && |b| >= 1
    requires SepFree(a, sep) && SepFree(b, sep)
    requires Join(a, sep) == Join(b, sep)
    ensures a == b
    decreases |a|
  {
    JoinHead(a, sep);
    JoinHead(b, sep);
    if |a| > 1 && |b| > 1 {
      var s := Join(a, sep);
      assert a[0] == s[..|a[0]|] == b[0];
      JoinInjective(a[1..], b[1..], sep);
      assert a == [a[0]] + a[1..];
      assert b == [b[0]] + b[1..];
    }
  }

  /** Splitting undoes joining: the round trip in the other direction. */
  lemma SplitJoin(segs: seq<string>, sep: char)
    requires |segs| >= 1 && SepFree(segs, sep)
    ensures Split(Join(segs, sep), sep) == segs
  {
    JoinInjective(Split(Join(segs, sep), sep), segs, sep);
  }

  /** The first piece of `s.split(sep)`: everything before the first separator. */
  function FirstPiece(s: string, sep: char): (r: string)
    ensures r <= s
    ensures sep !in r
    ensures r == s <==> sep !in s
    ensures r != s ==> s[|r|] == sep
  {
    var pieces := Split(s, sep);
    JoinHead(pieces, sep);
    pieces[0]
  }

  /** The three facts above pin the first piece down. */
  lemma FirstPieceUnique(s: string, sep: char, p: string)
    requires p <= s && sep !in p
    requires p == s || s[|p|] == sep
    ensures FirstPiece(s, sep) == p
  {
  }

  /** ASCII lower-casing of one character. */
  function LowerChar(c: char): char {
    if 'A' <= c <= 'Z' then (c as int - 'A' as int + 'a' as int) as char else c
  }

  /** `s.toLowerCase()`, restricted to the ASCII letters. */
  function ToLower(s: string): (r: string)
    ensures |r| == |s|
    ensures forall i :: 0 <= i < |s| ==> r[i] == LowerChar(s[i])
  {
    seq(|s|, i requires 0 <= i < |s| => LowerChar(s[i]))
  }

  /** Lower-casing twice is lower-casing once. */
  lemma ToLowerIdempotent(s: string)
    ensures ToLower(ToLower(s)) == ToLower(s)
  {
  }

}
