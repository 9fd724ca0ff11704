/**
 * `Alley\traverse()`, the public entry point, and the behaviour its test
 * suite pins down, stated as lemmas about concrete sources.
 */
module Alley {
  import opened Values
  import opened Strings
  import opened Traversal
  import Internals

  /**
   * `traverse($source, $path, $delimiter = '.')`: exactly what
   * `Traverser::createAndGet` returns (see `Internals.Traverser.CreateAndGet`).
   */
  function Traverse(source: Value, path: Path, delimiter: string := "."): (r: Value)
    ensures path.PList? ==> r.VList? && |r.items| == |path.entries|
    ensures !path.PList? ==> r == Resolve(source, Segments(path, delimiter))
  {
    Traversal.Traverse(source, path, delimiter)
  }

  /** The public function and a fresh `Traverser` agree, and `get()` may be called again. */
  method GetTwice(source: Value, path: Path, delimiter: string) returns (first: Value, second: Value)
    ensures first == Traverse(source, path, delimiter)
    ensures second == first
  {
    var t := new Internals.Traverser(source, path, delimiter);
    first := t.Get();
    second := t.Get();
  }

  // ---------------------------------------------------------------------
  // Fixtures
  // ---------------------------------------------------------------------

  /** `['alpha' => ['bravo' => ['charlie' => 'delta']]]` */
  function NestedArray(): Value {
    VMap(map["alpha" := VMap(map["bravo" := VMap(map["charlie" := VStr("delta")])])])
  }

  /** The same nesting as objects. */
  function NestedObject(): Value {
    VObj(map["alpha" := VObj(map["bravo" := VObj(map["charlie" := VStr("delta")])])])
  }

  /** The same nesting as `ArrayAccess` objects with no public properties. */
  function NestedArrayAccess(): Value {
    VAccess(map["alpha" := VAccess(map["bravo" := VAccess(map["charlie" := VStr("delta")], map[])], map[])], map[])
  }

  /** An array holding an object holding an array. */
  function NestedMixed(): Value {
    VMap(map["alpha" := VObj(map["bravo" := VMap(map["charlie" := VStr("delta")])])])
  }

  /** `['foxtrot' => 'golf', 'hotel' => 'india']` */
  function Echo(): Value {
    VMap(map["foxtrot" := VStr("golf"), "hotel" := VStr("india")])
  }

  /** `['mike' => 'november', 'oscar' => 'papa']` */
  function Lima(): Value {
    VMap(map["mike" := VStr("november"), "oscar" := VStr("papa")])
  }

  /** The source of the multiple-path test. */
  function Records(): Value {
    VMap(map["alpha" := VStr("bravo"), "charlie" := VStr("delta"), "echo" := Echo()])
  }

  /** The source of the path-in-key test: the same records and a deeper entry. */
  function MoreRecords(): Value {
    VMap(map[
      "alpha" := VStr("bravo"),
      "charlie" := VStr("delta"),
      "echo" := Echo(),
      "juliette" := VMap(map["kilo" := VMap(map["lima" := Lima()])])
    ])
  }

  /** `[['a' => 1], ['a' => 2]]` */
  function Pair(): Value {
    VList([VMap(map["a" := VInt(1)]), VMap(map["a" := VInt(2)])])
  }

  /** A path array listing plain paths under the keys 0, 1, ... */
  function Paths(ps: seq<Path>): (r: Path)
    ensures r.PList? && |r.entries| == |ps|
    ensures forall i :: 0 <= i < |ps| ==> r.entries[i] == (KInt(i), ps[i])
  {
    PList(seq(|ps|, i requires 0 <= i < |ps| => (KInt(i), ps[i])))
  }

  // ---------------------------------------------------------------------
  // Splitting concrete paths
  // ---------------------------------------------------------------------

  lemma SegmentsOfJoined(d: string, xs: seq<string>)
    requires |d| == 1 && |xs| >= 1
    requires forall k :: 0 <= k < |xs| ==> ClearOf(xs[k], d[0])
    ensures Segments(PStr(Implode(d, xs)), d) == Strs(xs)
  {
    forall k | 0 <= k < |xs|
      ensures DelimiterFree(xs[k], d)
    {
      CharFree(xs[k], d);
    }
    ExplodeImplode(d, xs);
  }

  lemma Split1(d: string, a: string)
    requires |d| == 1 && ClearOf(a, d[0])
    ensures Segments(PStr(a), d) == [KStr(a)]
  {
    SegmentsOfJoined(d, [a]);
  }

  lemma Split2(d: string, a: string, b: string)
    requires |d| == 1 && ClearOf(a, d[0]) && ClearOf(b, d[0])
    ensures Segments(PStr(a + d + b), d) == [KStr(a), KStr(b)]
  {
    ImplodeCons(d, a, [b]);
    assert [a] + [b] == [a, b];
    SegmentsOfJoined(d, [a, b]);
  }

  lemma Split3(d: string, a: string, b: string, c: string)
    requires |d| == 1 && ClearOf(a, d[0]) && ClearOf(b, d[0]) && ClearOf(c, d[0])
    ensures Segments(PStr(a + d + b + d + c), d) == [KStr(a), KStr(b), KStr(c)]
  {
    ImplodeCons(d, b, [c]);
    ImplodeCons(d, a, [b, c]);
    assert [b] + [c] == [b, c];
    assert [a] + [b, c] == [a, b, c];
    assert a + d + (b + d + c) == a + d + b + d + c;
    SegmentsOfJoined(d, [a, b, c]);
  }

  lemma Split4(d: string, a: string, b: string, c: string, e: string)
    requires |d| == 1 && ClearOf(a, d[0]) && ClearOf(b, d[0]) && ClearOf(c, d[0]) && ClearOf(e, d[0])
    ensures Segments(PStr(a + d + (b + d + (c + d + e))), d) == [KStr(a), KStr(b), KStr(c), KStr(e)]
  {
    ImplodeCons(d, c, [e]);
    ImplodeCons(d, b, [c, e]);
    ImplodeCons(d, a, [b, c, e]);
    assert [c] + [e] == [c, e];
    assert [b] + [c, e] == [b, c, e];
    assert [a] + [b, c, e] == [a, b, c, e];
    SegmentsOfJoined(d, [a, b, c, e]);
  }

  lemma PathAlphaBravo()
    ensures Segments(PStr("alpha.bravo"), ".") == [KStr("alpha"), KStr("bravo")]
  {
    assert "alpha" + "." + "bravo" == "alpha.bravo";
    Split2(".", "alpha", "bravo");
  }

  lemma PathAlphaBravoCharlieDelta()
    ensures Segments(PStr("alpha.bravo.charlie.delta"), ".") ==
              [KStr("alpha"), KStr("bravo"), KStr("charlie"), KStr("delta")]
  {
    var tail := "charlie" + "." + "delta";
    assert tail == "charlie.delta";
    var rest := "bravo" + "." + tail;
    assert rest == "bravo.charlie.delta";
    assert "alpha" + "." + rest == "alpha.bravo.charlie.delta";
    Split4(".", "alpha", "bravo", "charlie", "delta");
  }

  // ---------------------------------------------------------------------
  // Evaluating lookups step by step
  // ---------------------------------------------------------------------

  lemma ResolveStep(source: Value, k: Key, rest: seq<Key>)
    ensures Resolve(source, [k] + rest) ==
              (match Lookup(source, k) case None => VNull case Some(v) => Resolve(v, rest))
  {
    assert ([k] + rest)[1..] == rest;
  }

  /** A chain of lookups `alpha -> bravo -> charlie -> 'delta'`, whatever the containers. */
  predicate DeltaChain(root: Value, mid: Value, leaf: Value) {
    && Lookup(root, KStr("alpha")) == Some(mid)
    && Lookup(mid, KStr("bravo")) == Some(leaf)
    && Lookup(leaf, KStr("charlie")) == Some(VStr("delta"))
    && Lookup(root, KStr("zebra")).None?
  }

  /** A shorter path stops at the intermediate container. */
  lemma ChainPrefix(root: Value, mid: Value, leaf: Value)
    requires DeltaChain(root, mid, leaf)
    ensures Traverse(root, PStr("alpha.bravo")) == leaf
  {
    PathAlphaBravo();
    ResolveStep(root, KStr("alpha"), [KStr("bravo")]);
    ResolveStep(mid, KStr("bravo"), []);
  }

  /** The full path reaches the string at the end. */
  lemma ChainFull(root: Value, mid: Value, leaf: Value)
    requires DeltaChain(root, mid, leaf)
    ensures Traverse(root, PStr("alpha.bravo.charlie")) == VStr("delta")
  {
    var s := "alpha" + "." + "bravo" + "." + "charlie";
    assert s == "alpha.bravo.charlie";
    ThreeSteps(root, ".", "alpha", "bravo", "charlie", mid, leaf, VStr("delta"));
  }

  /** So does the same path written with the delimiter `/`. */
  lemma ChainFullSlash(root: Value, mid: Value, leaf: Value)
    requires DeltaChain(root, mid, leaf)
    ensures Traverse(root, PStr("alpha/bravo/charlie"), "/") == VStr("delta")
  {
    var s := "alpha" + "/" + "bravo" + "/" + "charlie";
    assert s == "alpha/bravo/charlie";
    ThreeSteps(root, "/", "alpha", "bravo", "charlie", mid, leaf, VStr("delta"));
  }

  /** Descending past the string at the end gives null. */
  lemma ChainPastString(root: Value, mid: Value, leaf: Value)
    requires DeltaChain(root, mid, leaf)
    ensures Traverse(root, PStr("alpha.bravo.charlie.delta")) == VNull
  {
    PathAlphaBravoCharlieDelta();
    ResolveStep(root, KStr("alpha"), [KStr("bravo"), KStr("charlie"), KStr("delta")]);
    ResolveStep(mid, KStr("bravo"), [KStr("charlie"), KStr("delta")]);
    ResolveStep(leaf, KStr("charlie"), [KStr("delta")]);
    ResolveStep(VStr("delta"), KStr("delta"), []);
  }

  /** A first key that is not there gives null. */
  lemma ChainMissing(root: Value, mid: Value, leaf: Value)
    requires DeltaChain(root, mid, leaf)
    ensures Traverse(root, PStr("zebra")) == VNull
  {
    Split1(".", "zebra");
    ResolveStep(root, KStr("zebra"), []);
  }

  // ---------------------------------------------------------------------
  // The scenarios of the test suite
  // ---------------------------------------------------------------------

  /** Nested arrays, with `.` and with `/`; past a string or at a missing key, null. */
  lemma TraverseArray()
    ensures Traverse(NestedArray(), PStr("alpha.bravo")) == VMap(map["charlie" := VStr("delta")])
    ensures Traverse(NestedArray(), PStr("alpha.bravo.charlie")) == VStr("delta")
    ensures Traverse(NestedArray(), PStr("alpha/bravo/charlie"), "/") == VStr("delta")
    ensures Traverse(NestedArray(), PStr("alpha.bravo.charlie.delta")) == VNull
    ensures Traverse(NestedArray(), PStr("zebra")) == VNull
  {
    var leaf := VMap(map["charlie" := VStr("delta")]);
    var mid := VMap(map["bravo" := leaf]);
    assert DeltaChain(NestedArray(), mid, leaf);
    ChainPrefix(NestedArray(), mid, leaf);
    ChainFull(NestedArray(), mid, leaf);
    ChainFullSlash(NestedArray(), mid, leaf);
    ChainPastString(NestedArray(), mid, leaf);
    ChainMissing(NestedArray(), mid, leaf);
  }

  /** The same checks on nested objects. */
  lemma TraverseObject()
    ensures Traverse(NestedObject(), PStr("alpha.bravo")) == VObj(map["charlie" := VStr("delta")])
    ensures Traverse(NestedObject(), PStr("alpha.bravo.charlie")) == VStr("delta")
    ensures Traverse(NestedObject(), PStr("alpha/bravo/charlie"), "/") == VStr("delta")
    ensures Traverse(NestedObject(), PStr("alpha.bravo.charlie.delta")) == VNull
    ensures Traverse(NestedObject(), PStr("zebra")) == VNull
  {
    var leaf := VObj(map["charlie" := VStr("delta")]);
    var mid := VObj(map["bravo" := leaf]);
    assert DeltaChain(NestedObject(), mid, leaf);
    ChainPrefix(NestedObject(), mid, leaf);
    ChainFull(NestedObject(), mid, leaf);
    ChainFullSlash(NestedObject(), mid, leaf);
    ChainPastString(NestedObject(), mid, leaf);
    ChainMissing(NestedObject(), mid, leaf);
  }

  /** The same checks on nested `ArrayAccess` objects. */
  lemma TraverseArrayAccess()
    ensures Traverse(NestedArrayAccess(), PStr("alpha.bravo")) == VAccess(map["charlie" := VStr("delta")], map[])
    ensures Traverse(NestedArrayAccess(), PStr("alpha.bravo.charlie")) == VStr("delta")
    ensures Traverse(NestedArrayAccess(), PStr("alpha/bravo/charlie"), "/") == VStr("delta")
    ensures Traverse(NestedArrayAccess(), PStr("alpha.bravo.charlie.delta")) == VNull
    ensures Traverse(NestedArrayAccess(), PStr("zebra")) == VNull
  {
    var leaf := VAccess(map["charlie" := VStr("delta")], map[]);
    var mid := VAccess(map["bravo" := leaf], map[]);
    assert DeltaChain(NestedArrayAccess(), mid, leaf);
    ChainPrefix(NestedArrayAccess(), mid, leaf);
    ChainFull(NestedArrayAccess(), mid, leaf);
    ChainFullSlash(NestedArrayAccess(), mid, leaf);
    ChainPastString(NestedArrayAccess(), mid, leaf);
    ChainMissing(NestedArrayAccess(), mid, leaf);
  }

  /** An array holding an object holding an array resolves like a uniform structure. */
  lemma TraverseMixedTypes()
    ensures Traverse(NestedMixed(), PStr("alpha.bravo")) == VMap(map["charlie" := VStr("delta")])
    ensures Traverse(NestedMixed(), PStr("alpha.bravo.charlie")) == VStr("delta")
    ensures Traverse(NestedMixed(), PStr("alpha/bravo/charlie"), "/") == VStr("delta")
    ensures Traverse(NestedMixed(), PStr("alpha.bravo.charlie.delta")) == VNull
    ensures Traverse(NestedMixed(), PStr("zebra")) == VNull
  {
    var leaf := VMap(map["charlie" := VStr("delta")]);
    var mid := VObj(map["bravo" := leaf]);
    assert DeltaChain(NestedMixed(), mid, leaf);
    ChainPrefix(NestedMixed(), mid, leaf);
    ChainFull(NestedMixed(), mid, leaf);
    ChainFullSlash(NestedMixed(), mid, leaf);
    ChainPastString(NestedMixed(), mid, leaf);
    ChainMissing(NestedMixed(), mid, leaf);
  }

  // ---------------------------------------------------------------------
  // Path arrays
  // ---------------------------------------------------------------------

  /** A path array of one entry gives the one-element list of that entry's value. */
  lemma ResultOf1(source: Value, path: Path, d: string, x: Value)
    requires path.PList? && |path.entries| == 1
    requires Traverse(EffectiveSource(source, path.entries[0].0, d), path.entries[0].1, d) == x
    ensures Traverse(source, path, d) == VList([x])
  {
    CollectionShape(source, path, d);
    assert Traverse(source, path, d).items == [x];
  }

  /** A path array of two entries gives the list of their two values, in order. */
  lemma ResultOf2(source: Value, path: Path, d: string, x: Value, y: Value)
    requires path.PList? && |path.entries| == 2
    requires Traverse(EffectiveSource(source, path.entries[0].0, d), path.entries[0].1, d) == x
    requires Traverse(EffectiveSource(source, path.entries[1].0, d), path.entries[1].1, d) == y
    ensures Traverse(source, path, d) == VList([x, y])
  {
    CollectionShape(source, path, d);
    assert Traverse(source, path, d).items == [x, y];
  }

  /** Two plain paths under the keys 0 and 1 give the list of their two values. */
  lemma PathsOf2(source: Value, p: Path, q: Path, x: Value, y: Value)
    requires Traverse(source, p) == x && Traverse(source, q) == y
    ensures Traverse(source, Paths([p, q])) == VList([x, y])
  {
    var path := Paths([p, q]);
    assert path.entries[0] == (KInt(0), p) && path.entries[1] == (KInt(1), q);
    ResultOf2(source, path, ".", x, y);
  }

  /** Two one-segment paths under the keys 0 and 1 give the two values those names find. */
  lemma TwoNames(root: Value, a: string, b: string, x: Value, y: Value)
    requires ClearOf(a, '.') && ClearOf(b, '.')
    requires Lookup(root, KStr(a)) == Some(x) && Lookup(root, KStr(b)) == Some(y)
    ensures Traverse(root, Paths([PStr(a), PStr(b)])) == VList([x, y])
  {
    OneStep(root, a, x);
    OneStep(root, b, y);
    PathsOf2(root, PStr(a), PStr(b), x, y);
  }

  /** A plain path, then a path array of two plain paths, under the keys 0 and 1. */
  lemma NestedOf2(source: Value, p: Path, q: Path, r: Path, x: Value, y: Value, z: Value)
    requires Traverse(source, p) == x && Traverse(source, q) == y && Traverse(source, r) == z
    ensures Traverse(source, Paths([p, Paths([q, r])])) == VList([x, VList([y, z])])
  {
    PathsOf2(source, q, r, y, z);
    PathsOf2(source, p, Paths([q, r]), x, VList([y, z]));
  }

  /** A plain path under the key 0, then a path under a string key that narrows the source. */
  lemma KeyedOf2(source: Value, p: Path, k: string, q: Path, x: Value, y: Value)
    requires Traverse(source, p) == x
    requires Traverse(EffectiveSource(source, KStr(k), "."), q) == y
    ensures Traverse(source, PList([(KInt(0), p), (KStr(k), q)])) == VList([x, y])
  {
    ResultOf2(source, PList([(KInt(0), p), (KStr(k), q)]), ".", x, y);
  }

  /** A present, non-null map entry is what a lookup of its key finds. */
  lemma MapLookup(m: map<string, Value>, name: string)
    requires name in m && m[name] != VNull
    ensures Lookup(VMap(m), KStr(name)) == Some(m[name])
  {
  }

  /** A one-segment path finds what one lookup finds. */
  lemma OneStep(root: Value, a: string, v: Value)
    requires ClearOf(a, '.') && Lookup(root, KStr(a)) == Some(v)
    ensures Traverse(root, PStr(a)) == v
  {
    Split1(".", a);
    ResolveStep(root, KStr(a), []);
    assert [KStr(a)] + [] == [KStr(a)];
  }

  /** A two-segment path finds what two lookups in a row find. */
  lemma TwoSteps(root: Value, path: string, a: string, b: string, v: Value, w: Value)
    requires Segments(PStr(path), ".") == [KStr(a), KStr(b)]
    requires Lookup(root, KStr(a)) == Some(v) && Lookup(v, KStr(b)) == Some(w)
    ensures Traverse(root, PStr(path)) == w
  {
    ResolveStep(root, KStr(a), [KStr(b)]);
    ResolveStep(v, KStr(b), []);
  }

  /** A three-segment path finds what three lookups in a row find. */
  lemma ThreeSteps(root: Value, d: string, a: string, b: string, c: string, u: Value, v: Value, w: Value)
    requires |d| == 1 && ClearOf(a, d[0]) && ClearOf(b, d[0]) && ClearOf(c, d[0])
    requires Lookup(root, KStr(a)) == Some(u) && Lookup(u, KStr(b)) == Some(v) && Lookup(v, KStr(c)) == Some(w)
    ensures Traverse(root, PStr(a + d + b + d + c), d) == w
  {
    Split3(d, a, b, c);
    ResolveStep(root, KStr(a), [KStr(b), KStr(c)]);
    ResolveStep(u, KStr(b), [KStr(c)]);
    ResolveStep(v, KStr(c), []);
  }

  lemma PathPositionA(n: nat)
    ensures Segments(PStr(NatToString(n) + ".a"), ".") == [KStr(NatToString(n)), KStr("a")]
  {
    assert ClearOf(NatToString(n), '.');
    Split2(".", NatToString(n), "a");
    assert NatToString(n) + "." + "a" == NatToString(n) + ".a";
  }

  // Each fixture's lookups, kept apart from the traversals that use them.

  lemma RecordsLookups()
    ensures Lookup(Records(), KStr("alpha")) == Some(VStr("bravo"))
    ensures Lookup(Records(), KStr("charlie")) == Some(VStr("delta"))
    ensures Lookup(Records(), KStr("echo")) == Some(Echo())
  {
    MapLookup(Records().entries, "alpha");
    MapLookup(Records().entries, "charlie");
    MapLookup(Records().entries, "echo");
  }

  lemma MoreRecordsLookups()
    ensures Lookup(MoreRecords(), KStr("charlie")) == Some(VStr("delta"))
    ensures Lookup(MoreRecords(), KStr("echo")) == Some(Echo())
    ensures Lookup(MoreRecords(), KStr("juliette")) == Some(VMap(map["kilo" := VMap(map["lima" := Lima()])]))
  {
    MapLookup(MoreRecords().entries, "charlie");
    MapLookup(MoreRecords().entries, "echo");
    MapLookup(MoreRecords().entries, "juliette");
  }

  lemma EchoLookups()
    ensures Lookup(Echo(), KStr("foxtrot")) == Some(VStr("golf"))
    ensures Lookup(Echo(), KStr("hotel")) == Some(VStr("india"))
  {
    MapLookup(Echo().entries, "foxtrot");
    MapLookup(Echo().entries, "hotel");
  }

  lemma LimaLookups()
    ensures Lookup(Lima(), KStr("mike")) == Some(VStr("november"))
    ensures Lookup(Lima(), KStr("oscar")) == Some(VStr("papa"))
  {
    MapLookup(Lima().entries, "mike");
    MapLookup(Lima().entries, "oscar");
  }

  /** `traverse($arr, ['alpha', 'charlie'])` */
  lemma TraverseTwoPaths()
    ensures Traverse(Records(), Paths([PStr("alpha"), PStr("charlie")])) == VList([VStr("bravo"), VStr("delta")])
  {
    RecordsLookups();
    TwoNames(Records(), "alpha", "charlie", VStr("bravo"), VStr("delta"));
  }

  lemma CharlieDelta(root: Value)
    requires Lookup(root, KStr("charlie")) == Some(VStr("delta"))
    ensures Traverse(root, PStr("charlie")) == VStr("delta")
  {
    OneStep(root, "charlie", VStr("delta"));
  }

  /** The two dotted paths of the nested path array. */
  lemma EchoPaths(root: Value)
    requires Lookup(root, KStr("echo")) == Some(Echo())
    ensures Traverse(root, PStr("echo.foxtrot")) == VStr("golf")
    ensures Traverse(root, PStr("echo.hotel")) == VStr("india")
  {
    EchoLookups();
    assert "echo" + "." + "foxtrot" == "echo.foxtrot";
    assert "echo" + "." + "hotel" == "echo.hotel";
    Split2(".", "echo", "foxtrot");
    Split2(".", "echo", "hotel");
    TwoSteps(root, "echo.foxtrot", "echo", "foxtrot", Echo(), VStr("golf"));
    TwoSteps(root, "echo.hotel", "echo", "hotel", Echo(), VStr("india"));
  }

  /** `traverse($arr, ['charlie', ['echo.foxtrot', 'echo.hotel']])`: a nested path array gives a nested list. */
  lemma TraverseNestedPaths()
    ensures Traverse(Records(), Paths([PStr("charlie"), Paths([PStr("echo.foxtrot"), PStr("echo.hotel")])])) ==
              VList([VStr("delta"), VList([VStr("golf"), VStr("india")])])
  {
    CharlieDelta(Records());
    RecordsLookups();
    EchoPaths(Records());
    NestedOf2(Records(), PStr("charlie"), PStr("echo.foxtrot"), PStr("echo.hotel"),
              VStr("delta"), VStr("golf"), VStr("india"));
  }

  /** `['foxtrot', 'hotel']` against the map holding both keys. */
  lemma FoxtrotHotel()
    ensures Traverse(Echo(), Paths([PStr("foxtrot"), PStr("hotel")])) == VList([VStr("golf"), VStr("india")])
  {
    EchoLookups();
    TwoNames(Echo(), "foxtrot", "hotel", VStr("golf"), VStr("india"));
  }

  /** The key `echo` is not numeric, so it narrows the source to the value it names. */
  lemma EchoNarrows()
    ensures EffectiveSource(MoreRecords(), KStr("echo"), ".") == Echo()
  {
    assert !IsNumeric("echo");
    MoreRecordsLookups();
    OneStep(MoreRecords(), "echo", Echo());
  }

  /** `traverse($arr, ['charlie', 'echo' => ['foxtrot', 'hotel']])`: the key `echo` narrows the source first. */
  lemma TraverseKeyNarrows()
    ensures Traverse(MoreRecords(),
                     PList([(KInt(0), PStr("charlie")), (KStr("echo"), Paths([PStr("foxtrot"), PStr("hotel")]))])) ==
              VList([VStr("delta"), VList([VStr("golf"), VStr("india")])])
  {
    EchoNarrows();
    FoxtrotHotel();
    MoreRecordsLookups();
    CharlieDelta(MoreRecords());
    KeyedOf2(MoreRecords(), PStr("charlie"), "echo", Paths([PStr("foxtrot"), PStr("hotel")]),
             VStr("delta"), VList([VStr("golf"), VStr("india")]));
  }

  /** `juliette.kilo.lima` finds what three lookups in a row find. */
  lemma JulietteKiloLimaPath(root: Value, u: Value, v: Value, w: Value)
    requires Lookup(root, KStr("juliette")) == Some(u) && Lookup(u, KStr("kilo")) == Some(v)
    requires Lookup(v, KStr("lima")) == Some(w)
    ensures Traverse(root, PStr("juliette.kilo.lima")) == w
  {
    var s := "juliette" + "." + "kilo" + "." + "lima";
    assert s == "juliette.kilo.lima";
    ThreeSteps(root, ".", "juliette", "kilo", "lima", u, v, w);
  }

  /** The value at `juliette.kilo.lima`. */
  lemma JulietteKiloLima()
    ensures Traverse(MoreRecords(), PStr("juliette.kilo.lima")) == Lima()
  {
    var lima := VMap(map["lima" := Lima()]);
    var kilo := VMap(map["kilo" := lima]);
    MoreRecordsLookups();
    MapLookup(kilo.entries, "kilo");
    MapLookup(lima.entries, "lima");
    JulietteKiloLimaPath(MoreRecords(), kilo, lima, Lima());
  }

  /** The key `juliette.kilo.lima` is not numeric, so it narrows the source to the value at that path. */
  lemma JulietteNarrows()
    ensures EffectiveSource(MoreRecords(), KStr("juliette.kilo.lima"), ".") == Lima()
  {
    assert !IsNumeric("juliette.kilo.lima");
    JulietteKiloLima();
  }

  /** `['mike', 'oscar']` against the map holding both keys. */
  lemma MikeOscar()
    ensures Traverse(Lima(), Paths([PStr("mike"), PStr("oscar")])) == VList([VStr("november"), VStr("papa")])
  {
    LimaLookups();
    TwoNames(Lima(), "mike", "oscar", VStr("november"), VStr("papa"));
  }

  /** `traverse($arr, ['juliette.kilo.lima' => ['mike', 'oscar']])`: a key may itself be a multi-segment path. */
  lemma TraverseDeepKey()
    ensures Traverse(MoreRecords(), PList([(KStr("juliette.kilo.lima"), Paths([PStr("mike"), PStr("oscar")]))])) ==
              VList([VList([VStr("november"), VStr("papa")])])
  {
    var inner := Paths([PStr("mike"), PStr("oscar")]);
    JulietteNarrows();
    MikeOscar();
    ResultOf1(MoreRecords(), PList([(KStr("juliette.kilo.lima"), inner)]), ".", VList([VStr("november"), VStr("papa")]));
  }

  /** `n.a` on a list of maps: the position named by `n`, then key `a`. */
  lemma PositionA(n: nat)
    requires n < 2
    ensures Traverse(Pair(), PStr(NatToString(n) + ".a")) == Pair().items[n].entries["a"]
  {
    var item := Pair().items[n];
    PathPositionA(n);
    ListLookup(Pair().items, n);
    MapLookup(item.entries, "a");
    TwoSteps(Pair(), NatToString(n) + ".a", NatToString(n), "a", item, item.entries["a"]);
  }

  /**
   * `traverse([['a' => 1], ['a' => 2]], ['1.a', '0.a'])`: the int keys are
   * numeric, so nothing narrows; `1.a` and `0.a` select list positions.
   */
  lemma TraversePositions()
    ensures Traverse(Pair(), Paths([PStr("1.a"), PStr("0.a")])) == VList([VInt(2), VInt(1)])
  {
    PositionA(1);
    PositionA(0);
    assert NatToString(1) + ".a" == "1.a" && NatToString(0) + ".a" == "0.a";
    PathsOf2(Pair(), PStr("1.a"), PStr("0.a"), VInt(2), VInt(1));
  }

  /**
   * `traverse([], true)`: PHP reads `true` as the key 1, which an empty array
   * does not hold, so the result is null.
   */
  lemma TraverseInvalidPath()
    ensures Traverse(VList([]), PInt(1)) == VNull
    ensures Traverse(VMap(map[]), PInt(1)) == VNull
  {
    assert PathString(PInt(1)) == "1";
    Split1(".", "1");
  }
}
