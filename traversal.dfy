/**
 * The traversal engine as pure functions.  `Traverse`, `Fetch`, `Collect`,
 * `EntryValue` and `EffectiveSource` follow `Traverser::run` and
 * `Traverser::reducePaths` step by step, including the way the remaining
 * segments are joined into a new string path and split again.  `Resolve` is
 * the plain recursion over a sequence of segments; the contract of
 * `Traverse` says the two agree.
 */
module Traversal {
  import opened Values
  import opened Strings

  /**
   * A path: a string, an int, or an array of paths.  The entries of `PList`
   * keep the array's key order; each key is an int or a string.
   */
  datatype Path = PStr(s: string) | PInt(n: int) | PList(entries: seq<(Key, Path)>)

  // ---------------------------------------------------------------------
  // Termination measures
  // ---------------------------------------------------------------------

  /** Nesting depth of path arrays. */
  function Depth(p: Path): nat
    decreases p, if p.PList? then |p.entries| + 1 else 0
  {
    match p
    case PList(es) => 1 + MaxDepth(p, |es|)
    case _ => 0
  }

  /** The largest depth among the first `n` entries of a path array. */
  function MaxDepth(p: Path, n: nat): (r: nat)
    requires p.PList? && n <= |p.entries|
    ensures forall i :: 0 <= i < n ==> Depth(p.entries[i].1) <= r
    decreases p, n
  {
    if n == 0 then 0
    else
      var m := MaxDepth(p, n - 1);
      var d := Depth(p.entries[n - 1].1);
      if m < d then d else m
  }

  /**
   * `(string) $path` for a string or int path.  An int path becomes a numeric
   * string, and a non-negative one names that position again.
   */
  function PathString(p: Path): (r: string)
    requires !p.PList?
    ensures p.PInt? ==> IsNumeric(r)
    ensures p.PInt? && p.n >= 0 ==> ParseIndex(r) == Some(p.n)
  {
    match p
    case PStr(s) => s
    case PInt(n) => IntToString(n)
  }

  function Len(p: Path): nat {
    if p.PList? then 0 else |PathString(p)|
  }

  function Width(p: Path): nat {
    if p.PList? then |p.entries| + 1 else 0
  }

  // ---------------------------------------------------------------------
  // Segmentation
  // ---------------------------------------------------------------------

  function Strs(xs: seq<string>): (r: seq<Key>)
    ensures |r| == |xs| && forall i :: 0 <= i < |xs| ==> r[i] == KStr(xs[i])
  {
    seq(|xs|, i requires 0 <= i < |xs| => KStr(xs[i]))
  }

  function Names(ks: seq<Key>): (r: seq<string>)
    ensures |r| == |ks| && forall i :: 0 <= i < |ks| ==> r[i] == KeyName(ks[i])
  {
    seq(|ks|, i requires 0 <= i < |ks| => KeyName(ks[i]))
  }

  /** A string or int path used whole, without splitting: `[ $this->path ]`. */
  function WholeKey(p: Path): Key
    requires !p.PList?
  {
    match p
    case PStr(s) => KStr(s)
    case PInt(n) => KInt(n)
  }

  /**
   * `$path_pieces`: the path split on a non-empty delimiter, or the path
   * itself as the only piece when the delimiter is empty.
   */
  function Segments(p: Path, d: string): (r: seq<Key>)
    requires !p.PList?
    ensures |r| >= 1
  {
    if |d| > 0 then Strs(Explode(d, PathString(p))) else [WholeKey(p)]
  }

  // ---------------------------------------------------------------------
  // Reference definition: recursion on the segments
  // ---------------------------------------------------------------------

  /** The value at a sequence of segments; null as soon as a step finds nothing. */
  function Resolve(source: Value, segs: seq<Key>): Value
    decreases |segs|
  {
    if segs == [] then source
    else
      match Lookup(source, segs[0])
      case None => VNull
      case Some(next) => Resolve(next, segs[1..])
  }

  // ---------------------------------------------------------------------
  // The engine, as the source runs it
  // ---------------------------------------------------------------------

  /** `Traverser::createAndGet($source, $path, $d)`. */
  function Traverse(source: Value, path: Path, d: string): (r: Value)
    ensures path.PList? ==> r.VList? && |r.items| == |path.entries|
    ensures !path.PList? ==> r == Resolve(source, Segments(path, d))
    decreases Depth(path), Len(path), Width(path), 2
  {
    if path.PList? then VList(Collect(source, path, |path.entries|, d))
    else Fetch(source, path, d)
  }

  /** `run()` for a string or int path. */
  function Fetch(source: Value, path: Path, d: string): (r: Value)
    requires !path.PList?
    ensures r == Resolve(source, Segments(path, d))
    decreases Depth(path), Len(path), 0, 1
  {
    var pieces := Segments(path, d);
    var key := pieces[0];
    var rest := pieces[1..];
    var name := KeyName(key);
    if IsKeyed(source) && !HasOffset(source, name) then VNull
    else if !IsKeyed(source) && IsObject(source) && !HasProperty(source, name) then VNull
    else
      // Neither branch assigns `$result` for a scalar source: it stays null.
      var found :=
        if IsKeyed(source) then OffsetGet(source, name)
        else if IsObject(source) then PropertyGet(source, name)
        else VNull;
      if |rest| == 0 then found
      else
        var s := PathString(path);
        ExplodeTail(d, s);
        assert Names(rest) == Explode(d, s)[1..];
        var next := Implode(d, Names(rest));
        assert Segments(PStr(next), d) == rest;
        Traverse(found, PStr(next), d)
  }

  /**
   * The `array_reduce` over the first `n` keys of a path array: one value per
   * entry, appended in key order.
   */
  function Collect(source: Value, path: Path, n: nat, d: string): (r: seq<Value>)
    requires path.PList? && n <= |path.entries|
    ensures |r| == n
    ensures forall i :: 0 <= i < n ==> r[i] == EntryValue(source, path, i, d)
    decreases Depth(path), 0, n, 1
  {
    if n == 0 then []
    else Collect(source, path, n - 1, d) + [EntryValue(source, path, n - 1, d)]
  }

  /**
   * What `reducePaths` appends for the entry at position `i`.  Under a numeric
   * key that is the entry's path traversed from the source.  Under any other
   * key a string or int entry path is resolved as the key's segments followed
   * by the path's own.
   */
  function EntryValue(source: Value, path: Path, i: nat, d: string): (r: Value)
    requires path.PList? && i < |path.entries|
    ensures IsNumericKey(path.entries[i].0) ==> r == Traverse(source, path.entries[i].1, d)
    ensures !IsNumericKey(path.entries[i].0) && !path.entries[i].1.PList? ==>
              r == Resolve(source, Segments(PStr(path.entries[i].0.s), d) + Segments(path.entries[i].1, d))
    decreases Depth(path), 0, i, 3
  {
    var (k, p) := path.entries[i];
    var r := Traverse(EffectiveSource(source, k, d), p, d);
    if IsNumericKey(k) || p.PList? then r
    else
      ResolveAppend(source, Segments(PStr(k.s), d), Segments(p, d));
      r
  }

  /**
   * The source an entry is resolved against: the original source for a
   * numeric key, otherwise the value found at the key used as a path.
   */
  function EffectiveSource(source: Value, k: Key, d: string): (r: Value)
    ensures IsNumericKey(k) ==> r == source
    ensures !IsNumericKey(k) ==> r == Resolve(source, Segments(PStr(k.s), d))
    decreases 0, |KeyName(k)|, 0, 3
  {
    match k
    case KInt(_) => source
    case KStr(s) => if IsNumeric(s) then source else Traverse(source, PStr(s), d)
  }

  // ---------------------------------------------------------------------
  // Properties
  // ---------------------------------------------------------------------

  /** Re-joining pieces and splitting them again gives the path back. */
  lemma SegmentsRoundTrip(p: Path, d: string)
    requires !p.PList? && |d| > 0
    ensures Implode(d, Names(Segments(p, d))) == PathString(p)
    ensures forall k :: 0 <= k < |Segments(p, d)| ==> Segments(p, d)[k].KStr?
  {
    var xs := Explode(d, PathString(p));
    assert Names(Strs(xs)) == xs;
    ImplodeExplode(d, PathString(p));
  }

  /** With an empty delimiter the whole path, an int left an int, is the only piece. */
  lemma EmptyDelimiterWholePath(source: Value, p: Path)
    requires !p.PList?
    ensures Segments(p, "") == [WholeKey(p)]
    ensures Traverse(source, p, "") ==
              (match Lookup(source, WholeKey(p)) case None => VNull case Some(v) => v)
  {
  }

  /** Stepping through `a` then `b` is stepping through `a + b`. */
  lemma {:induction false} ResolveAppend(source: Value, a: seq<Key>, b: seq<Key>)
    ensures Resolve(source, a + b) == Resolve(Resolve(source, a), b)
    decreases |a|
  {
    if a == [] {
      assert a + b == b;
    } else {
      assert (a + b)[0] == a[0];
      assert (a + b)[1..] == a[1..] + b;
      match Lookup(source, a[0])
      case None =>
        assert Resolve(VNull, b) == VNull;
      case Some(next) =>
        ResolveAppend(next, a[1..], b);
    }
  }

  /** Once a prefix of the segments finds nothing, no longer path finds anything. */
  lemma MissingAtAnyDepth(source: Value, a: seq<Key>, b: seq<Key>)
    requires Resolve(source, a) == VNull
    ensures Resolve(source, a + b) == VNull
  {
    ResolveAppend(source, a, b);
  }

  /** Descending past a value that is neither an array nor an object finds nothing. */
  lemma DescendPastScalar(source: Value, a: seq<Key>, b: seq<Key>)
    requires !IsKeyed(Resolve(source, a)) && !IsObject(Resolve(source, a)) && |b| > 0
    ensures Resolve(source, a + b) == VNull
  {
    ResolveAppend(source, a, b);
  }

  /** An unset or null first segment on an array or `ArrayAccess` source gives null. */
  lemma UnsetOffsetStops(source: Value, path: Path, d: string)
    requires !path.PList? && IsKeyed(source)
    requires !HasOffset(source, KeyName(Segments(path, d)[0]))
    ensures Traverse(source, path, d) == VNull
  {
  }

  /** An unset or null first property on a plain object gives null. */
  lemma UnsetPropertyStops(source: Value, path: Path, d: string)
    requires !path.PList? && !IsKeyed(source) && IsObject(source)
    requires !HasProperty(source, KeyName(Segments(path, d)[0]))
    ensures Traverse(source, path, d) == VNull
  {
  }

  /** A source that is neither an array, an `ArrayAccess` nor an object resolves every scalar path to null. */
  lemma ScalarSourceIsNull(source: Value, path: Path, d: string)
    requires !path.PList? && !IsKeyed(source) && !IsObject(source)
    ensures Traverse(source, path, d) == VNull
  {
  }

  /** One piece, present: the result is exactly the stored value. */
  lemma SinglePieceFound(source: Value, path: Path, d: string, v: Value)
    requires !path.PList? && |Segments(path, d)| == 1
    requires Lookup(source, Segments(path, d)[0]) == Some(v)
    ensures Traverse(source, path, d) == v
  {
  }

  /**
   * More pieces, the first present: the result is the traversal of the found
   * value at the remaining pieces joined with the same delimiter, and that
   * joined path splits back into exactly the remaining pieces.
   */
  lemma MorePiecesRecurse(source: Value, path: Path, d: string, v: Value)
    requires !path.PList? && |Segments(path, d)| > 1
    requires Lookup(source, Segments(path, d)[0]) == Some(v)
    ensures |d| > 0
    ensures Segments(PStr(Implode(d, Names(Segments(path, d)[1..]))), d) == Segments(path, d)[1..]
    ensures Traverse(source, path, d) == Traverse(v, PStr(Implode(d, Names(Segments(path, d)[1..]))), d)
  {
    var s := PathString(path);
    ExplodeTail(d, s);
    assert Names(Segments(path, d)[1..]) == Explode(d, s)[1..];
  }

  /**
   * A path written as delimiter-free names joined by a one-character delimiter
   * resolves those names one after the other.
   */
  lemma JoinedPath(source: Value, d: string, xs: seq<string>)
    requires |d| == 1 && |xs| >= 1
    requires forall k :: 0 <= k < |xs| ==> DelimiterFree(xs[k], d)
    ensures Traverse(source, PStr(Implode(d, xs)), d) == Resolve(source, Strs(xs))
  {
    ExplodeImplode(d, xs);
  }

  /**
   * A path array gives a list with one value per entry, in key order, each
   * the traversal of the entry's path from the entry's effective source; the
   * keys of the path array do not appear in the result.
   */
  lemma CollectionShape(source: Value, path: Path, d: string)
    requires path.PList?
    ensures Traverse(source, path, d).VList?
    ensures |Traverse(source, path, d).items| == |path.entries|
    ensures forall i :: 0 <= i < |path.entries| ==>
              Traverse(source, path, d).items[i] ==
              Traverse(EffectiveSource(source, path.entries[i].0, d), path.entries[i].1, d)
  {
    var r := Collect(source, path, |path.entries|, d);
    assert Traverse(source, path, d) == VList(r);
  }
}
