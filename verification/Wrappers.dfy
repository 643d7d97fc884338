/** Shapes shared by the models: an absent value, a value or an error, and small facts about collections. */
module Wrappers {
  datatype Option<+T> = None | Some(value: T)

  datatype Result<+T, +E> = Ok(value: T) | Err(error: E)

  /** `Map.get` in TypeScript and `dict.get` in Python. */
  function Lookup<K, V>(m: map<K, V>, k: K): (r: Option<V>)
    ensures r.Some? <==> k in m
    ensures r.Some? ==> r.value == m[k]
  {
    if k in m then Some(m[k]) else None
  }

  predicate NoRepeats<T(==)>(s: seq<T>) {
    forall i, j | 0 <= i < j < |s| :: s[i] != s[j]
  }

  lemma SomeElement(s: set<int>)
    ensures s != {} ==> exists x :: x in s
  {
    if forall x :: x !in s { assert s == {}; }
  }

  lemma SomeText(s: set<string>)
    ensures s != {} ==> exists x :: x in s
  {
  }
}

/** Byte strings. */
module Octets {
  newtype Byte = x: int | 0 <= x < 256

  type Bytes = seq<Byte>
}
