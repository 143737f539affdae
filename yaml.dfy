/**
 * The values a YAML frontmatter block loads to, with Python's truthiness,
 * dictionary lookup and `list(...)` conversion on them. The loader itself
 * is not modelled: callers receive it as a function from text to value,
 * None standing for a YAML syntax error.
 */
module Yaml {
  import opened Wrappers

  datatype Value =
    | VNone
    | VBool(b: bool)
    | VInt(i: int)
    | VFloat(r: real)
    | VStr(s: string)
    | VList(items: seq<Value>)
      /** A mapping, its entries in insertion order (keys are distinct). */
    | VMap(entries: seq<(string, Value)>)
      /** Other scalars (timestamps): truthy and not iterable. */
    | VOther

  /** Python's `bool(v)`. */
  predicate Truthy(v: Value)
  {
    match v
    case VNone => false
    case VBool(b) => b
    case VInt(i) => i != 0
    case VFloat(r) => r != 0.0
    case VStr(s) => s != []
    case VList(items) => items != []
    case VMap(entries) => entries != []
    case VOther => true
  }

  const EmptyMap: Value := VMap([])

  /** Python's `v or {}`: a falsy value is replaced by an empty mapping. */
  function OrEmptyMap(v: Value): (r: Value)
    ensures Truthy(r) || r == EmptyMap
    ensures Truthy(v) ==> r == v
  {
    if Truthy(v) then v else EmptyMap
  }

  /** `d.get(key)` on a mapping's entries: the value of the first entry with that key. */
  function Get(entries: seq<(string, Value)>, key: string): Option<Value>
  {
    if entries == [] then None
    else if entries[0].0 == key then Some(entries[0].1)
    else Get(entries[1..], key)
  }

  /** A lookup finds nothing exactly when no entry has the key, and otherwise the value of an entry with it. */
  lemma {:induction false} GetFinds(entries: seq<(string, Value)>, key: string)
    ensures Get(entries, key).None? <==> forall k | 0 <= k < |entries| :: entries[k].0 != key
    ensures Get(entries, key).Some? ==> exists k | 0 <= k < |entries| :: entries[k] == (key, Get(entries, key).value)
  {
    if entries != [] && entries[0].0 != key {
      var rest := entries[1..];
      GetFinds(rest, key);
      assert forall k | 1 <= k < |entries| :: entries[k] == rest[k - 1];
      if Get(rest, key).Some? {
        var k :| 0 <= k < |rest| && rest[k] == (key, Get(rest, key).value);
        assert entries[k + 1] == rest[k];
      }
    }
  }

  /** `d.get(key, dflt)`. */
  function GetOr(entries: seq<(string, Value)>, key: string, dflt: Value): Value
  {
    match Get(entries, key)
    case Some(v) => v
    case None => dflt
  }

  /** The entries whose key is not in `keys`, in their original order. */
  function Without(entries: seq<(string, Value)>, keys: set<string>): seq<(string, Value)>
  {
    if entries == [] then []
    else if entries[0].0 in keys then Without(entries[1..], keys)
    else [entries[0]] + Without(entries[1..], keys)
  }

  /** Dropping keys keeps exactly the entries with other keys. */
  lemma {:induction false} WithoutKeeps(entries: seq<(string, Value)>, keys: set<string>)
    ensures forall e | e in Without(entries, keys) :: e in entries && e.0 !in keys
    ensures forall e | e in entries && e.0 !in keys :: e in Without(entries, keys)
  {
    if entries != [] {
      WithoutKeeps(entries[1..], keys);
      assert forall e | e in entries :: e == entries[0] || e in entries[1..];
    }
  }

  /**
   * Python's `list(v)`: a list's items, a string's characters, a mapping's
   * keys; None for a value that is not iterable (a TypeError).
   */
  function ToList(v: Value): (r: Option<seq<Value>>)
    ensures v.VList? ==> r == Some(v.items)
    ensures v.VStr? ==> r.Some? && |r.value| == |v.s| && forall k | 0 <= k < |v.s| :: r.value[k] == VStr([v.s[k]])
    ensures r.None? <==> !(v.VList? || v.VStr? || v.VMap?)
  {
    match v
    case VList(items) => Some(items)
    case VStr(s) => Some(seq(|s|, k requires 0 <= k < |s| => VStr([s[k]])))
    case VMap(entries) => Some(seq(|entries|, k requires 0 <= k < |entries| => VStr(entries[k].0)))
    case _ => None
  }
}
