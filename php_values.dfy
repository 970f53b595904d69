/** PHP values the compositor works with: `null` and string-keyed arrays.

    A PHP array with string keys is an insertion-ordered dictionary: iteration
    follows the order in which keys were first stored, and assigning to a key
    that is already present replaces its value without moving it. */
module PhpValues {

  /** A value that may be PHP `null`. */
  datatype Option<T> = None | Some(value: T)

  /** No key occurs twice: the last key is not among the earlier ones, recursively. */
  ghost predicate Distinct(s: seq<string>) {
    s == [] || (s[|s| - 1] !in s[..|s| - 1] && Distinct(s[..|s| - 1]))
  }

  /** A string-keyed PHP array: `keys` is the iteration order, `values` the contents. */
  datatype Assoc<V> = Assoc(keys: seq<string>, values: map<string, V>) {

    /** Keys are distinct and are exactly the stored keys. */
    ghost predicate Valid() {
      && Distinct(keys)
      && (forall k :: k in values <==> k in keys)
    }

    /** `$a[$k] = $v`: a new key goes to the end, an existing key keeps its place. */
    function Put(k: string, v: V): (r: Assoc<V>)
      ensures Valid() ==> r.Valid()
      ensures r.values == values[k := v]
      ensures k in values ==> r.keys == keys
      ensures k !in values ==> r.keys == keys + [k]
    {
      if k in values then Assoc(keys, values[k := v])
      else
        assert (keys + [k])[..|keys|] == keys;
        Assoc(keys + [k], values[k := v])
    }
  }

  /** `array()` */
  function Empty<V>(): (r: Assoc<V>)
    ensures r.Valid() && r.keys == [] && r.values == map[]
  {
    Assoc([], map[])
  }
}
