/** A JavaScript `Map` as a value: its entries, and the order in which their
    keys were first inserted, which is the order `keys()` and `values()`
    enumerate them in. `set` on a key already present replaces its value and
    keeps its position; `delete` removes the key from the order. */
module JsMap {
  import opened Js

  /** No element occurs twice. */
  ghost predicate Distinct<T>(s: seq<T>)
  {
    forall i, j :: 0 <= i < j < |s| ==> s[i] != s[j]
  }

  /** `s` with every occurrence of `k` removed; the body keeps the rest in
      order, the contract states membership only. */
  function Without<T(==)>(s: seq<T>, k: T): (r: seq<T>)
    ensures forall x :: x in r ==> x in s && x != k
    ensures forall x :: x in s && x != k ==> x in r
    ensures Distinct(s) ==> Distinct(r)
    ensures k !in s ==> r == s
  {
    if s == [] then []
    else if s[0] == k then Without(s[1..], k)
    else
      assert Distinct(s) ==> Distinct(s[1..]) && s[0] !in s[1..] by {
        if Distinct(s) { DistinctTail(s); }
      }
      [s[0]] + Without(s[1..], k)
  }

  /** The tail of a list of distinct elements is distinct and misses the head. */
  lemma DistinctTail<T>(s: seq<T>)
    requires Distinct(s) && s != []
    ensures Distinct(s[1..]) && s[0] !in s[1..]
  {
    forall j | 0 <= j < |s[1..]| ensures s[1..][j] != s[0] {
      assert s[1..][j] == s[j + 1];
    }
  }

  datatype OrderedMap<K(==), V> = OrderedMap(keys: seq<K>, entries: map<K, V>)
  {
    /** The key order lists every key of the map exactly once. */
    ghost predicate Valid()
    {
      && Distinct(keys)
      && (forall k :: k in entries ==> k in keys)
      && (forall k :: k in keys ==> k in entries)
    }

    /** `map.size`. */
    function Size(): nat
    {
      |keys|
    }

    /** `map.has(k)`. */
    predicate Has(k: K)
    {
      k in entries
    }

    /** `map.get(k)`, with `undefined` as `None`. */
    function Get(k: K): Option<V>
    {
      if k in entries then Some(entries[k]) else None
    }

    /** `map.set(k, v)`. */
    function Set(k: K, v: V): (r: OrderedMap<K, V>)
      requires Valid()
      ensures r.Valid()
      ensures r.entries == entries[k := v]
      ensures k in entries ==> r.keys == keys
      ensures k !in entries ==> r.keys == keys + [k]
    {
      OrderedMap(if k in entries then keys else keys + [k], entries[k := v])
    }

    /** `map.delete(k)`; a missing key leaves the map as it is. */
    function Delete(k: K): (r: OrderedMap<K, V>)
      requires Valid()
      ensures r.Valid()
      ensures r.entries == entries - {k}
      ensures r.keys == Without(keys, k)
      ensures k !in entries ==> r == this
    {
      OrderedMap(Without(keys, k), entries - {k})
    }

    /** `Array.from(map.values())`: the values in key-insertion order. The
      contract states the comprehension pointwise so that callers reason
      about single elements rather than about the comprehension. */
    function Values(): (r: seq<V>)
      requires Valid()
      ensures |r| == |keys|
      ensures forall i :: 0 <= i < |keys| ==> r[i] == entries[keys[i]]
    {
      seq(|keys|, i requires 0 <= i < |keys| => entries[keys[i]])
    }
  }

  /** Every value of the map is in `values()`, at the position of its key. */
  lemma ValueListed<K, V>(m: OrderedMap<K, V>, k: K)
    requires m.Valid() && k in m.entries
    ensures exists i :: 0 <= i < |m.keys| && m.keys[i] == k && m.Values()[i] == m.entries[k]
  {
    var i :| 0 <= i < |m.keys| && m.keys[i] == k;
  }

  /** Everything in `values()` is the value of some key. */
  lemma ListedValue<K, V>(m: OrderedMap<K, V>, i: int)
    requires m.Valid() && 0 <= i < |m.keys|
    ensures m.keys[i] in m.entries && m.Values()[i] == m.entries[m.keys[i]]
  {
  }

  /** `new Map()`. */
  function Empty<K(==), V>(): (r: OrderedMap<K, V>)
    ensures r.Valid() && r.entries == map[] && r.keys == []
  {
    OrderedMap([], map[])
  }

  /** A list of distinct elements is as long as the set of its elements. */
  lemma {:induction false} DistinctCard<T>(s: seq<T>)
    requires Distinct(s)
    ensures |set x | x in s| == |s|
  {
    if s != [] {
      DistinctTail(s);
      DistinctCard(s[1..]);
      assert (set x | x in s) == (set x | x in s[1..]) + {s[0]};
    }
  }

  /** `map.size` is the number of entries of the map. */
  lemma SizeIsCount<K, V>(m: OrderedMap<K, V>)
    requires m.Valid()
    ensures m.Size() == |m.entries|
  {
    DistinctCard(m.keys);
    assert m.entries.Keys == set x | x in m.keys;
  }
}
