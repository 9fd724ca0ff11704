/**
 * PHP's `explode` and `implode` on a non-empty delimiter: leftmost,
 * non-overlapping splitting that keeps empty segments, and its inverse.
 */
module Strings {
  import opened Values

  /** The delimiter `d` starts at position `i` of `s`. */
  predicate OccursAt(s: string, d: string, i: nat) {
    i + |d| <= |s| && s[i..i + |d|] == d
  }

  /** `s` contains no occurrence of `d` at all. */
  predicate DelimiterFree(s: string, d: string) {
    forall i :: 0 <= i <= |s| ==> !OccursAt(s, d, i)
  }

  /** The leftmost occurrence of `d` in `s` at or after `from`. */
  function FindFrom(s: string, d: string, from: nat): (r: Option<nat>)
    requires |d| > 0 && from <= |s|
    ensures r.Some? ==> from <= r.value && OccursAt(s, d, r.value)
    ensures r.Some? ==> forall j: nat :: from <= j < r.value ==> !OccursAt(s, d, j)
    ensures r.None? ==> forall j: nat :: from <= j ==> !OccursAt(s, d, j)
    decreases |s| - from
  {
    if from + |d| > |s| then None
    else if OccursAt(s, d, from) then Some(from)
    else FindFrom(s, d, from + 1)
  }

  /** Nothing of `s` before the leftmost occurrence of `d` contains `d`. */
  lemma FreeBeforeFirst(s: string, d: string)
    requires |d| > 0
    ensures FindFrom(s, d, 0).None? ==> DelimiterFree(s, d)
    ensures FindFrom(s, d, 0).Some? ==> DelimiterFree(s[..FindFrom(s, d, 0).value], d)
  {
    var r := FindFrom(s, d, 0);
    var i := if r.Some? then r.value else |s|;
    forall j | 0 <= j <= i
      ensures !OccursAt(s[..i], d, j)
    {
      if j + |d| <= i {
        assert !OccursAt(s, d, j);
        assert s[..i][j..j + |d|] == s[j..j + |d|];
      }
    }
    assert s[..|s|] == s;
  }

  /** `explode($d, $s)` for a non-empty `$d`. */
  function Explode(d: string, s: string): (r: seq<string>)
    requires |d| > 0
    ensures |r| >= 1
    decreases |s|
  {
    match FindFrom(s, d, 0)
    case None => [s]
    case Some(i) => [s[..i]] + Explode(d, s[i + |d|..])
  }

  /** No segment of a split contains the delimiter. */
  lemma {:induction false} ExplodeDelimiterFree(d: string, s: string)
    requires |d| > 0
    ensures forall k :: 0 <= k < |Explode(d, s)| ==> DelimiterFree(Explode(d, s)[k], d)
    decreases |s|
  {
    FreeBeforeFirst(s, d);
    match FindFrom(s, d, 0)
    case None =>
    case Some(i) =>
      ExplodeDelimiterFree(d, s[i + |d|..]);
  }

  /**
   * `implode($d, $xs)`: the result starts with the first piece, and when there
   * is a second piece the delimiter follows the first one.
   */
  function Implode(d: string, xs: seq<string>): (r: string)
    ensures |xs| >= 1 ==> |xs[0]| <= |r| && r[..|xs[0]|] == xs[0]
    ensures |xs| >= 2 ==> OccursAt(r, d, |xs[0]|)
  {
    if |xs| == 0 then ""
    else if |xs| == 1 then xs[0]
    else xs[0] + d + Implode(d, xs[1..])
  }

  lemma CutAt(s: string, d: string, i: nat)
    requires OccursAt(s, d, i)
    ensures s == s[..i] + d + s[i + |d|..]
  {
    assert s == s[..i] + s[i..i + |d|] + s[i + |d|..];
  }

  lemma ImplodeCons(d: string, x: string, xs: seq<string>)
    requires |xs| >= 1
    ensures Implode(d, [x] + xs) == x + d + Implode(d, xs)
  {
    assert ([x] + xs)[1..] == xs;
  }

  /** Joining the segments of a split gives back the string. */
  lemma {:induction false} ImplodeExplode(d: string, s: string)
    requires |d| > 0
    ensures Implode(d, Explode(d, s)) == s
    decreases |s|
  {
    match FindFrom(s, d, 0)
    case None =>
    case Some(i) =>
      var rest := s[i + |d|..];
      ImplodeExplode(d, rest);
      var xs := Explode(d, s);
      var tail := Explode(d, rest);
      assert xs == [s[..i]] + tail;
      assert xs[1..] == tail;
      assert Implode(d, xs) == s[..i] + d + Implode(d, tail);
      CutAt(s, d, i);
  }

  /**
   * The segments after the first, joined again with the delimiter, split back
   * into exactly those segments; and that string is shorter than `s`.
   */
  lemma ExplodeTail(d: string, s: string)
    requires |d| > 0 && |Explode(d, s)| > 1
    ensures Explode(d, Implode(d, Explode(d, s)[1..])) == Explode(d, s)[1..]
    ensures |Implode(d, Explode(d, s)[1..])| < |s|
  {
    match FindFrom(s, d, 0)
    case None =>
    case Some(i) =>
      var rest := s[i + |d|..];
      ImplodeExplode(d, rest);
      assert Explode(d, s)[1..] == Explode(d, rest);
  }

  /** No character of `s` is `c`. */
  predicate ClearOf(s: string, c: char) {
    forall i :: 0 <= i < |s| ==> s[i] != c
  }

  /** A one-character delimiter occurs in `x` only where some character of `x` is it. */
  lemma CharFree(x: string, d: string)
    requires |d| == 1 && ClearOf(x, d[0])
    ensures DelimiterFree(x, d)
  {
    forall j | 0 <= j <= |x|
      ensures !OccursAt(x, d, j)
    {
      if j + 1 <= |x| {
        assert x[j..j + 1][0] == x[j];
      }
    }
  }

  lemma {:induction false} FindFromFree(x: string, d: string, from: nat)
    requires |d| > 0 && from <= |x| && DelimiterFree(x, d)
    ensures FindFrom(x, d, from).None?
    decreases |x| - from
  {
    if from + |d| <= |x| {
      FindFromFree(x, d, from + 1);
    }
  }

  lemma DelimiterFreePrefix(x: string, d: string, rest: string)
    requires |d| == 1 && DelimiterFree(x, d)
    ensures FindFrom(x + d + rest, d, 0) == Some(|x|)
  {
    var s := x + d + rest;
    assert OccursAt(s, d, |x|) by {
      assert s[|x|..|x| + 1] == d;
    }
    forall j: nat | j < |x|
      ensures !OccursAt(s, d, j)
    {
      assert s[j..j + 1] == x[j..j + 1];
      assert OccursAt(s, d, j) == OccursAt(x, d, j);
    }
  }

  /**
   * For a one-character delimiter the converse holds too: a non-empty list of
   * segments free of the delimiter is exactly what its join splits into.
   */
  lemma {:induction false} ExplodeImplode(d: string, xs: seq<string>)
    requires |d| == 1 && |xs| >= 1
    requires forall k :: 0 <= k < |xs| ==> DelimiterFree(xs[k], d)
    ensures Explode(d, Implode(d, xs)) == xs
  {
    if |xs| == 1 {
      assert Implode(d, xs) == xs[0];
      FindFromFree(xs[0], d, 0);
    } else {
      var rest := Implode(d, xs[1..]);
      var s := xs[0] + d + rest;
      assert Implode(d, xs) == s;
      DelimiterFreePrefix(xs[0], d, rest);
      assert s[..|xs[0]|] == xs[0];
      assert s[|xs[0]| + |d|..] == rest;
      ExplodeImplode(d, xs[1..]);
      assert Explode(d, s) == [xs[0]] + Explode(d, rest);
    }
  }

  /** PHP's `explode('.', 'a..b')` keeps the empty middle segment. */
  lemma ExplodeKeepsEmptySegments()
    ensures Explode(".", "a..b") == ["a", "", "b"]
  {
    var xs := ["a", "", "b"];
    CharFree("a", ".");
    CharFree("", ".");
    CharFree("b", ".");
    assert Implode(".", xs) == "a..b";
    ExplodeImplode(".", xs);
  }
}
