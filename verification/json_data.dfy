/**
 * Decoded JSON as Python sees it after `json.loads`: objects are ordered
 * key/value sequences (dicts keep insertion order), plus the bits of Python
 * semantics the generator leans on — truthiness, `dict.keys()`, `dict.get`,
 * hashability and `==` between dictionary keys.
 */
module JsonData {
  import opened Optional

  /** Numbers are integers only; JSON floats do not occur in this model. */
  datatype Json =
    | Null
    | Bool(b: bool)
    | Num(n: int)
    | Str(s: string)
    | Arr(items: seq<Json>)
    | Obj(fields: seq<(string, Json)>)

  /** `{}`: what the upstream client answers whenever it has nothing usable. */
  const EmptyObject: Json := Obj([])

  /** Python's `bool(v)`. */
  predicate Truthy(j: Json)
  {
    match j
    case Null => false
    case Bool(b) => b
    case Num(n) => n != 0
    case Str(s) => s != []
    case Arr(items) => items != []
    case Obj(fields) => fields != []
  }

  /** `dict.keys()`, in insertion order. */
  function Keys(fields: seq<(string, Json)>): seq<string>
  {
    seq(|fields|, i requires 0 <= i < |fields| => fields[i].0)
  }

  /** `dict.values()`, in insertion order. */
  function Values(fields: seq<(string, Json)>): seq<Json>
  {
    seq(|fields|, i requires 0 <= i < |fields| => fields[i].1)
  }

  predicate HasKey(fields: seq<(string, Json)>, key: string)
  {
    exists i :: 0 <= i < |fields| && fields[i].0 == key
  }

  /** `d.get(key)`; keys of a decoded object are distinct, so the first match is the entry. */
  function Lookup(fields: seq<(string, Json)>, key: string): (r: Option<Json>)
    ensures r.Some? <==> HasKey(fields, key)
    ensures r.Some? ==> exists i :: 0 <= i < |fields| && fields[i] == (key, r.value)
  {
    if fields == [] then None
    else if fields[0].0 == key then Some(fields[0].1)
    else
      var r := Lookup(fields[1..], key);
      assert HasKey(fields, key) ==> HasKey(fields[1..], key) by {
        if HasKey(fields, key) {
          var i :| 0 <= i < |fields| && fields[i].0 == key;
          assert fields[1..][i - 1].0 == key;
        }
      }
      assert r.Some? ==> exists i :: 0 <= i < |fields| && fields[i] == (key, r.value) by {
        if r.Some? {
          var i :| 0 <= i < |fields[1..]| && fields[1..][i] == (key, r.value);
          assert fields[i + 1] == (key, r.value);
        }
      }
      r
  }

  /** Values that may be used as a dictionary key (lists and dicts are unhashable). */
  predicate Hashable(j: Json)
  {
    !j.Arr? && !j.Obj?
  }

  /** Numeric value of a bool or int, as Python's `==` sees it (`True == 1`). */
  function NumericValue(j: Json): int
    requires j.Bool? || j.Num?
  {
    if j.Num? then j.n else if j.b then 1 else 0
  }

  /** Python's `==` between two hashable values, which decides dictionary-key identity. */
  predicate PyEq(a: Json, b: Json)
  {
    || (a.Null? && b.Null?)
    || (a.Str? && b.Str? && a.s == b.s)
    || ((a.Bool? || a.Num?) && (b.Bool? || b.Num?) && NumericValue(a) == NumericValue(b))
  }
}
