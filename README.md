# traverse-reshape: the traversal engine

A model of the engine behind `Alley\traverse()` in the PHP library
`alleyinteractive/traverse-reshape`. `traverse($source, $path, $delimiter)`
takes a source value and a path and plucks a value out of nested arrays,
`ArrayAccess` objects and plain objects. The source may also be any scalar.
The path is a string, an int, or an array of paths, and any path in that
array may itself be an array of paths. "Not found" is always `null`.

The project has five modules:

- `Values` (values.dfy) covers PHP values and the two `isset`-style lookups
  the engine makes. Offsets are read from arrays and `ArrayAccess` objects;
  properties are read from every other object. It also has the decimal form
  of ints and a simple `is_numeric`.
- `Strings` (strings.dfy) is `explode` and `implode` on a non-empty
  delimiter: leftmost, non-overlapping splitting. It proves the round trips
  between them.
- `Traversal` (traversal.dfy) is the engine as pure functions. These follow
  `Traverser::run` and `Traverser::reducePaths` step by step, including how
  the remaining segments are joined into a new string path and split again.
  `Resolve` is the reference definition, plain recursion on the segment
  sequence, and the contract of `Traverse` says the two agree.
- `Internals` (internals.dfy) is the class `Alley\Internals\Traverser`:
  - `source`, `path` and `delimiter` are read-only `const` fields, `result`
    is the one mutable field;
  - `run` sets `result` step by step, and folds a path array with a loop
    that `reducePaths` appends to;
  - every method is proved against the functions of `Traversal`.
- `Alley` (alley.dfy) is the public `traverse`, with its default delimiter
  `'.'`. It also holds the behaviour the test suite pins down, stated as
  lemmas about concrete sources.

How PHP values are represented:

- A PHP array is a `VList` when its keys are exactly 0, 1, …, n-1 in order,
  which is what the engine builds. Any other array is a `VMap` keyed by the
  keys' string form.
- An `ArrayAccess` object is a `VAccess`, with its offsets and its public
  properties. `offsetExists` means present and not null.
- A plain object is a `VObj`.
- Paths are `PStr`, `PInt` or `PList`. A `PList` keeps its entries, and
  their int or string keys, in the array's key order.

## Model

| member | source | states |
|---|---|---|
| Alley.Traverse | src/traverse.php:27-29 | `traverse` is `Traverser::createAndGet` with the delimiter defaulting to `'.'`. For a path array it gives a list with one value per entry; for a string or int path, the recursive resolution of its segments. |
| Alley.GetTwice | src/traverse.php:27-29 | A fresh `Traverser`'s `get()` returns what `traverse` returns, and a second `get()` on the same instance returns the same value. |
| Internals.Traverser.constructor | src/Alley/Internals/Traverser.php:28-42 | The three read-only fields hold the arguments, and `result` starts as null. |
| Internals.Traverser.CreateAndGet | src/Alley/Internals/Traverser.php:50-54 | A fresh instance's `get()` returns exactly the traversal of `(source, path, delimiter)`. |
| Internals.Traverser.Get | src/Alley/Internals/Traverser.php:61-66 | After `run()`, the returned value is the `result` field, and that field holds the traversal of the instance's inputs. |
| Internals.Traverser.Run | src/Alley/Internals/Traverser.php:71-131 | After it, `result` is the traversal of the instance's inputs. The fold over a path array keeps the invariant that the accumulator holds the values of the entries seen so far, in key order. |
| Internals.Traverser.ReducePaths | src/Alley/Internals/Traverser.php:140-158 | For a path array, the accumulator gets exactly one value appended: the entry's path resolved against the effective source. Otherwise the accumulator is returned unchanged, which is the guard that cannot fire. |
| Traversal.Traverse | src/Alley/Internals/Traverser.php:71-131 | A path array gives a `VList` with as many items as entries. A string or int path gives `Resolve` of its segments, so the re-join and re-split agrees with plain recursion. |
| Traversal.Fetch | src/Alley/Internals/Traverser.php:86-130 | `run` for a string or int path (split, shift the first piece, keyed or property lookup with the null stops, recurse on the re-joined rest) equals `Resolve` of the segments. |
| Traversal.Collect | src/Alley/Internals/Traverser.php:74 | The `array_reduce` over the first n keys gives n values, and value i is the value of entry i. |
| Traversal.EffectiveSource | src/Alley/Internals/Traverser.php:146-154 | A numeric key (every int key, and numeric strings) leaves the source unchanged. A non-numeric key gives the source resolved at that key, used as a path with the same delimiter. |
| Traversal.Segments | src/Alley/Internals/Traverser.php:86-88 | Segmentation always produces at least one piece. |
| Traversal.SegmentsRoundTrip | src/Alley/Internals/Traverser.php:86-87 | With a non-empty delimiter every piece is a string, and re-joining the pieces yields the path's string form. |
| Traversal.EmptyDelimiterWholePath | src/Alley/Internals/Traverser.php:86-88 | With an empty delimiter the whole path is the only piece, and an int stays an int. The result is that one lookup, or null. |
| Traversal.ResolveAppend | src/Alley/Internals/Traverser.php:96-130 | Stepping through the segments `a + b` is stepping through `a`, then through `b` from what was found. |
| Traversal.MissingAtAnyDepth | src/Alley/Internals/Traverser.php:99-107 | Once a prefix of the segments finds nothing, every longer path finds nothing. |
| Traversal.DescendPastScalar | src/Alley/Internals/Traverser.php:98-117 | Descending past a value that is neither keyed nor an object finds null. |
| Traversal.UnsetOffsetStops | src/Alley/Internals/Traverser.php:98-108 | On an array or `ArrayAccess` source, an unset or null first segment gives null. |
| Traversal.UnsetPropertyStops | src/Alley/Internals/Traverser.php:111-114 | On a plain object source, an unset or null first property gives null. |
| Traversal.ScalarSourceIsNull | src/Alley/Internals/Traverser.php:28 | A source that is neither an array, an `ArrayAccess` nor an object resolves every string or int path to null. |
| Traversal.SinglePieceFound | src/Alley/Internals/Traverser.php:110-122 | With one piece that is present, the result is exactly the stored value. |
| Traversal.MorePiecesRecurse | src/Alley/Internals/Traverser.php:96 | With more pieces, the first present, the delimiter is non-empty. Splitting the re-joined rest gives back exactly the remaining pieces, and the result is the traversal of the found value at that re-joined path. |
| Traversal.JoinedPath | src/Alley/Internals/Traverser.php:86-87 | Delimiter-free names joined by a one-character delimiter resolve as those names, one after the other. |
| Traversal.PathString | src/Alley/Internals/Traverser.php:87 | `(string) $this->path`: an int path becomes a numeric string, and a non-negative one names that same position again. |
| Traversal.EntryValue | src/Alley/Internals/Traverser.php:152-156 | Under a numeric key, the value appended is the entry's path traversed from the original source. Under any other key, a string or int entry path resolves as the key's segments followed by the path's own segments. |
| Traversal.CollectionShape | src/Alley/Internals/Traverser.php:140-158 | A path array gives a list with one value per entry, in key order. Each value is the entry's path resolved against its effective source, and the collection's keys are dropped. |
| Strings.FindFrom | src/Alley/Internals/Traverser.php:87 | The position found is the leftmost occurrence of the delimiter at or after the start. `None` means there is none. |
| Strings.Explode | src/Alley/Internals/Traverser.php:87 | `explode` on a non-empty delimiter yields at least one piece. |
| Strings.ExplodeDelimiterFree | src/Alley/Internals/Traverser.php:87 | No piece of a split contains the delimiter. |
| Strings.Implode | src/Alley/Internals/Traverser.php:130 | `implode` starts with the first piece, and when there is a second piece the delimiter follows the first one. Its inverse is `Explode`, by the two round-trip lemmas. |
| Strings.ImplodeExplode | src/Alley/Internals/Traverser.php:87 | Joining the pieces of a split with the same delimiter gives back the string. |
| Strings.ExplodeTail | src/Alley/Internals/Traverser.php:130 | After dropping the first piece, the rest re-joined is strictly shorter than the string, and splitting it gives back exactly that rest. |
| Strings.ExplodeImplode | src/Alley/Internals/Traverser.php:130 | For a one-character delimiter, splitting joined delimiter-free pieces gives back the pieces. |
| Strings.ExplodeKeepsEmptySegments | src/Alley/Internals/Traverser.php:87 | `"a..b"` splits on `.` into `a`, `""`, `b`. |
| Values.IntToString | src/Alley/Internals/Traverser.php:87 | The `(string)` cast of an int is a numeric string. Without its `-` sign it names the int's magnitude again, so a non-negative int is found again as a list position. |
| Values.HasOffset | src/Alley/Internals/Traverser.php:99 | `isset($source[$key])` holds exactly when the offset is present and not null. For a list, that means a position written in decimal, within bounds, whose element is not null. |
| Values.HasProperty | src/Alley/Internals/Traverser.php:112 | `isset($source->{$key})` holds exactly when the property is present and not null. |
| Values.IsNumeric | src/Alley/Internals/Traverser.php:152 | A numeric string contains a digit and nothing but digits, decimal points and one leading sign. It approximates PHP's `is_numeric`, as the `Values.IsNumeric` line under "Left out" says. |
| Values.DigitsAreNumeric | src/Alley/Internals/Traverser.php:152 | Every non-empty string of digits is numeric, leading zeros included. |
| Values.IsNumericKey | src/Alley/Internals/Traverser.php:152 | Every int key is numeric, and so is every string key made of digits, so neither narrows the source. |
| Values.Lookup | src/Alley/Internals/Traverser.php:98-117 | A lookup finds nothing or a non-null value, and it finds something only in an array, an `ArrayAccess` or an object. |
| Values.ArrayAccessReadsOffsets | src/Alley/Internals/Traverser.php:98-111 | An `ArrayAccess` object is read by offset, never by property: it behaves exactly like an array with the same entries. |
| Values.ListLookup | src/Alley/Internals/Traverser.php:99-110 | Element i of a list is found under int key i and under its decimal name alike, unless it is null. |
| Values.ParseIndexOfNatToString | src/Alley/Internals/Traverser.php:87 | The decimal name of a list position names that position again. |
| Values.NatToStringOfParseIndex | src/Alley/Internals/Traverser.php:87 | A name that denotes a position is exactly that position's decimal name. |
| Values.PositionNameIsNumeric | src/Alley/Internals/Traverser.php:152 | The decimal name of a position is numeric, like the int key it stands for. |
| Alley.TraverseArray | tests/Traverse/TraverseTest.php:24-39 | For nested arrays, `alpha.bravo` gives the inner array, and `alpha.bravo.charlie` and `alpha/bravo/charlie` with `/` give `delta`. Both `alpha.bravo.charlie.delta` and `zebra` give null. |
| Alley.TraverseObject | tests/Traverse/TraverseTest.php:44-61 | The same five results for nested objects. |
| Alley.TraverseArrayAccess | tests/Traverse/TraverseTest.php:66-82 | The same five results for nested `ArrayAccess` objects. |
| Alley.TraverseMixedTypes | tests/Traverse/TraverseTest.php:87-102 | The same five results for an array holding an object holding an array. |
| Alley.TraverseTwoPaths | tests/Traverse/TraverseTest.php:118-121 | `['alpha', 'charlie']` gives `['bravo', 'delta']`. |
| Alley.TraverseNestedPaths | tests/Traverse/TraverseTest.php:123-135 | `['charlie', ['echo.foxtrot', 'echo.hotel']]` gives `['delta', ['golf', 'india']]`. |
| Alley.TraverseKeyNarrows | tests/Traverse/TraverseTest.php:162-171 | `['charlie', 'echo' => ['foxtrot', 'hotel']]` gives `['delta', ['golf', 'india']]`: the key `echo` narrows the source. |
| Alley.TraverseDeepKey | tests/Traverse/TraverseTest.php:173-181 | `['juliette.kilo.lima' => ['mike', 'oscar']]` gives `[['november', 'papa']]`. |
| Alley.TraversePositions | src/Alley/Internals/Traverser.php:146-156 | On `[['a' => 1], ['a' => 2]]`, the paths `['1.a', '0.a']` under int keys give `[2, 1]`. The keys are numeric, so they do not narrow the source. |
| Alley.TraverseInvalidPath | tests/Traverse/TraverseTest.php:187-190 | The path `true`, which PHP reads as the int 1, gives null on an empty array. |

## Left out

- `reshape()` is not part of this model. Its implementation file is not available, only its tests.
- Floating-point values are not modelled as sources or keys.
- PHP type juggling at the `traverse` boundary is left out: a bool path arrives as the int 0 or 1, and the model takes that int path; and the `TypeError`s that `strict_types` raises for other path types are not modelled.
- Numeric-string key normalisation is modelled only for list positions (`ParseIndex`). A `VMap` is keyed by the keys' string form, so `"1"` and `1` are the same key there, as in PHP. `"01"` stays a string, as in PHP.
- `VList` and `VMap` are two representations of one PHP array type. An array with keys 0…n-1 written as a `VMap` behaves the same under lookups, but the model does not prove the two equal.
- The key order of a `VMap` is not modelled. The engine never iterates a source array, only path arrays, and those keep their order in `PList`.
- Values.IsNumeric: it is PHP's `is_numeric` for an optional sign and decimal digits with at most one point, such as `"07"`, `"1.5"`, `".5"` or `"5."`. Leading or trailing whitespace (`" 1"`) and exponents (`"1e5"`) are numeric in PHP but not in the model. The traversal uses the predicate only to decide which collection keys narrow the source.
- Object identity is not modelled: objects are compared as values, where the tests compare references with `assertSame`.
- The `ArrayAccess` test fixture class is not modelled. Its behaviour is taken as a keyed map whose `offsetExists` means present and not null.
- Recursion depth, performance and PHPUnit itself are left out.
- A collection key keeps the original source exactly when `is_numeric($key)` holds (src/Alley/Internals/Traverser.php:152). So a numeric string key that is not a position, such as `"07"` or `"1.5"`, does not narrow the source either; the model follows the code.
- PHP strings are byte strings, while the model's `string` is a sequence of characters. `explode`, `implode` and the `strlen(...) > 0` test behave the same on both for valid UTF-8, which the model assumes of every path and delimiter.
