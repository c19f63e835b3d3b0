/** JSON and YAML values, and Python's insertion-ordered dictionaries. */
module Json {
  import opened Options

  datatype Json =
    | Null
    | Bool(b: bool)
    | Num(n: real)
    | Str(s: string)
    | List(items: seq<Json>)
    | Dict(fields: seq<(string, Json)>)

  /** A dictionary: the first entry for a key is the entry for that key. */
  type Table<K, V> = seq<(K, V)>

  type Fields<V> = Table<string, V>

  function Get<K(==), V>(d: Table<K, V>, key: K): Option<V> {
    if d == [] then None else if d[0].0 == key then Some(d[0].1) else Get(d[1..], key)
  }

  /** Assignment keeps the place of a key that is there and appends one that is not. */
  function Put<K(==), V>(d: Table<K, V>, key: K, v: V): Table<K, V> {
    if d == [] then [(key, v)]
    else if d[0].0 == key then [(key, v)] + d[1..]
    else [d[0]] + Put(d[1..], key, v)
  }

  predicate Has<K(==), V>(d: Table<K, V>, key: K) {
    Get(d, key).Some?
  }

  lemma {:induction false} GetPut<K, V>(d: Table<K, V>, key: K, v: V, other: K)
    ensures Get(Put(d, key, v), other) == if other == key then Some(v) else Get(d, other)
    decreases |d|
  {
    if d != [] && d[0].0 != key {
      GetPut(d[1..], key, v, other);
      assert Put(d, key, v)[1..] == Put(d[1..], key, v);
    } else if d != [] {
      assert Put(d, key, v)[1..] == d[1..];
    }
  }

  lemma {:induction false} PutPut<K, V>(d: Table<K, V>, key: K, v: V, w: V)
    ensures Put(Put(d, key, v), key, w) == Put(d, key, w)
    decreases |d|
  {
    if d != [] && d[0].0 != key {
      PutPut(d[1..], key, v, w);
      assert Put(d, key, v)[1..] == Put(d[1..], key, v);
    } else if d != [] {
      assert Put(d, key, v)[1..] == d[1..];
    }
  }

  /** `d.get(key)`: None when the key is absent, as when it is there with None. */
  function Lookup(d: Fields<Json>, key: string): Json {
    match Get(d, key) case None => Null case Some(v) => v
  }
}
