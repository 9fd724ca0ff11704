/**
 * `Alley\Internals\Traverser`: one instance per traversal step, with
 * read-only `source`, `path` and `delimiter` and a `result` field that `run`
 * sets step by step.  Every method is proved against the functions of
 * `Traversal`.
 */
module Internals {
  import opened Values
  import opened Strings
  import opened Traversal

  class Traverser {
    const source: Value
    const path: Path
    const delimiter: string
    var result: Value

    /** `result` is still the initial null, or already the traversed value. */
    ghost predicate Valid()
      reads this
    {
      result == VNull || result == Traverse(source, path, delimiter)
    }

    constructor (source: Value, path: Path, delimiter: string)
      ensures this.source == source && this.path == path && this.delimiter == delimiter
      ensures result == VNull
      ensures Valid()
    {
      this.source := source;
      this.path := path;
      this.delimiter := delimiter;
      result := VNull;
    }

    /** `createAndGet(...$args)`: a fresh instance, then `get()`. */
    static method CreateAndGet(source: Value, path: Path, delimiter: string) returns (r: Value)
      ensures r == Traverse(source, path, delimiter)
      decreases Depth(path), Len(path), Width(path), 4
    {
      var t := new Traverser(source, path, delimiter);
      r := t.Get();
    }

    /** `get()`: run the traversal and return `result`; a second call returns the same. */
    method Get() returns (r: Value)
      requires Valid()
      modifies this
      ensures r == result && r == Traverse(source, path, delimiter)
      decreases Depth(path), Len(path), Width(path), 3
    {
      Run();
      r := result;
    }

    /** `run()`. */
    method Run()
      requires Valid()
      modifies this
      ensures result == Traverse(source, path, delimiter)
      decreases Depth(path), Len(path), Width(path), 2
    {
      if path.PList? {
        // array_reduce(array_keys($this->path), [$this, 'reducePaths'], [])
        var carry: seq<Value> := [];
        var i := 0;
        while i < |path.entries|
          invariant 0 <= i <= |path.entries|
          invariant carry == Collect(source, path, i, delimiter)
        {
          carry := ReducePaths(carry, i);
          i := i + 1;
        }
        result := VList(carry);
        return;
      }

      var pieces := Segments(path, delimiter);
      var key := pieces[0];
      pieces := pieces[1..];
      var name := KeyName(key);

      if IsKeyed(source) {
        if !HasOffset(source, name) {
          return;
        }
        result := OffsetGet(source, name);
      } else if IsObject(source) {
        if !HasProperty(source, name) {
          return;
        }
        result := PropertyGet(source, name);
      } else {
        // Neither branch assigns: `result` is still null.
        ScalarSourceIsNull(source, path, delimiter);
      }

      if |pieces| == 0 {
        return;
      }

      var s := PathString(path);
      ExplodeTail(delimiter, s);
      assert Names(pieces) == Explode(delimiter, s)[1..];
      var next := Implode(delimiter, Names(pieces));
      result := CreateAndGet(result, PStr(next), delimiter);
    }

    /**
     * `reducePaths($carry, $key)`: append the value of the entry at position
     * `i`, resolved against the source narrowed by the entry's key when that
     * key is not numeric.
     */
    method ReducePaths(carry: seq<Value>, i: nat) returns (r: seq<Value>)
      requires path.PList? ==> i < |path.entries|
      ensures path.PList? ==> r == carry + [EntryValue(source, path, i, delimiter)]
      ensures !path.PList? ==> r == carry
      decreases Depth(path), 0, i, 1
    {
      if !path.PList? {
        return carry;
      }
      var (k, p) := path.entries[i];
      var src := source;
      if !IsNumericKey(k) {
        src := CreateAndGet(src, PStr(k.s), delimiter);
      }
      var v := CreateAndGet(src, p, delimiter);
      r := carry + [v];
    }
  }
}
