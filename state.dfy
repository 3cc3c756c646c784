/**
 * The store's state container: a flat, shallow key/value map that is
 * replaced by a new version on every update and never changed in place.
 * The Immutable.js map of the source is modelled only at its top level:
 * `get` by key and a shallow, right-biased `merge`.
 */
module ImmutableState {
  import opened Wrappers

  /** A JavaScript value as a store may hold it. */
  datatype Value =
    | Null
    | Bool(b: bool)
    | Num(n: int)
    | Str(s: string)
    | List(items: seq<Value>)
    | Obj(fields: map<string, Value>)

  /** One version of a store's state. */
  type State = map<string, Value>

  /** The state a store starts with, and the one `clear` installs: `Immutable.fromJS({})`. */
  const Empty: State := map[]

  /** `get(key)`: the value under `key`, or `None` (undefined) when the key is absent. */
  function Get(s: State, key: string): (r: Option<Value>)
    ensures r.Some? <==> key in s
    ensures r.Some? ==> r.value == s[key]
  {
    if key in s then Some(s[key]) else None
  }

  /**
   * `merge(diff)`: a new version whose keys are those of both inputs, where
   * every key of `diff` takes the incoming value and every other key keeps
   * the old one. Nested values are replaced whole, never merged.
   */
  function Merge(s: State, diff: State): (r: State)
    ensures r.Keys == s.Keys + diff.Keys
    ensures forall k :: k in diff ==> r[k] == diff[k]
    ensures forall k :: k in s && k !in diff ==> r[k] == s[k]
  {
    s + diff
  }

  /** Reading after a merge: the incoming value where `diff` has the key, the old value otherwise. */
  lemma GetAfterMerge(s: State, diff: State, key: string)
    ensures Get(Merge(s, diff), key) == if key in diff then Get(diff, key) else Get(s, key)
  {
  }

  /** Every key reads as undefined in the empty state. */
  lemma GetEmpty(key: string)
    ensures Get(Empty, key) == None
  {
  }
}
