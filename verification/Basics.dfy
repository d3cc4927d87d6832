/** Small generic helpers shared by the models. */
module Basics {

  /** A value that may be absent (TypeScript's `undefined`). */
  datatype Option<+T> = None | Some(value: T)

  /** `map.get(key) ?? default`. */
  function GetOr<K, V>(m: map<K, V>, key: K, default: V): V {
    if key in m then m[key] else default
  }

  /** `map.get(key)`. */
  function Get<K, V>(m: map<K, V>, key: K): Option<V> {
    if key in m then Some(m[key]) else None
  }

  /** The elements of a sequence. */
  function Elements<T>(s: seq<T>): set<T> {
    set x | x in s
  }

  /** No element occurs twice. */
  ghost predicate Distinct<T>(s: seq<T>) {
    forall i, j :: 0 <= i < j < |s| ==> s[i] != s[j]
  }
}
