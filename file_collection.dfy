/**
 * The `File` record and the `Files` object of src/ReactAiStudio/AIStudioContext.tsx,
 * with the three JavaScript object operations the studio applies to a
 * `Files` object: reading `files[k]`, assigning `files[k] = f` and
 * `delete files[k]`. A JavaScript object enumerates its (non-numeric) keys
 * in insertion order, and `Object.keys` is what the studio iterates over,
 * so the keys are kept in a sequence beside the map.
 */
module FileCollection {
  import opened Wrappers

  /** One source file: its name, its text and its editor language. */
  datatype File = File(name: string, value: string, language: string)

  /** A `Files` object: its keys in enumeration order and the entry under each key. */
  datatype Files = Files(order: seq<string>, entries: map<string, File>)

  predicate Distinct(s: seq<string>)
  {
    forall i, j :: 0 <= i < j < |s| ==> s[i] != s[j]
  }

  /** Every key of the object is enumerated, exactly once. */
  ghost predicate Valid(fs: Files)
  {
    Distinct(fs.order) && forall k :: k in fs.entries <==> k in fs.order
  }

  /** `files[k]`, with `None` for `undefined`. */
  function Lookup(fs: Files, k: string): Option<File>
  {
    if k in fs.entries then Some(fs.entries[k]) else None
  }

  /**
   * `files[k] = f`: afterwards `files[k]` is `f` and every other key reads
   * as before; an existing key keeps its place in the key order, a new key
   * is enumerated last.
   */
  function Assign(fs: Files, k: string, f: File): (r: Files)
    ensures Lookup(r, k) == Some(f)
    ensures forall j :: j != k ==> Lookup(r, j) == Lookup(fs, j)
    ensures Valid(fs) && k in fs.entries ==> r.order == fs.order
    ensures Valid(fs) && k !in fs.entries ==> r.order == fs.order + [k]
    ensures Valid(fs) ==> Valid(r)
  {
    Files(if k in fs.entries then fs.order else fs.order + [k], fs.entries[k := f])
  }

  /** `keys.filter(x => x !== k)`, which is also what `delete` does to the key order. */
  function Without(keys: seq<string>, k: string): (r: seq<string>)
    ensures forall x :: x in r <==> x in keys && x != k
    ensures k !in keys ==> r == keys
    ensures |r| <= |keys|
    ensures Distinct(keys) ==> Distinct(r)
    decreases |keys|
  {
    if |keys| == 0 then []
    else
      var rest := Without(keys[1..], k);
      assert keys == [keys[0]] + keys[1..];
      if keys[0] == k then rest
      else
        assert Distinct(keys) ==> keys[0] !in keys[1..] && keys[0] !in rest;
        assert forall i :: 0 < i < |[keys[0]] + rest| ==> ([keys[0]] + rest)[i] == rest[i - 1];
        [keys[0]] + rest
  }

  /**
   * `delete files[k]`: afterwards `files[k]` is undefined and every other key
   * reads as before, in the same relative order; deleting an absent key
   * changes nothing.
   */
  function Delete(fs: Files, k: string): (r: Files)
    ensures Lookup(r, k) == None
    ensures forall j :: j != k ==> Lookup(r, j) == Lookup(fs, j)
    ensures r.order == Without(fs.order, k)
    ensures Valid(fs) && k !in fs.entries ==> r == fs
    ensures Valid(fs) ==> Valid(r)
  {
    Files(Without(fs.order, k), fs.entries - {k})
  }
}
