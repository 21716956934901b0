/**
 * An insertion-ordered dictionary, standing for `ListDictionary` and for a
 * `Dictionary` that is only ever added to: a map plus the order in which its
 * keys were first inserted.
 */
module OrderedMaps {
  import opened Wrappers

  datatype OrderedMap<K, V> = OrderedMap(keys: seq<K>, items: map<K, V>)

  /** Every key is listed once, and the listed keys are exactly the map's keys. */
  ghost predicate Valid<K(!new), V>(m: OrderedMap<K, V>) {
    && (forall i, j :: 0 <= i < j < |m.keys| ==> m.keys[i] != m.keys[j])
    && (forall k :: k in m.items <==> k in m.keys)
  }

  function Empty<K(!new), V>(): (m: OrderedMap<K, V>)
    ensures Valid(m)
    ensures m.items == map[] && m.keys == []
  {
    OrderedMap([], map[])
  }

  /** The value stored under `k`, if any. */
  function Get<K(!new), V>(m: OrderedMap<K, V>, k: K): Option<V> {
    if k in m.items then Some(m.items[k]) else None
  }

  /**
   * `m[k] = v`: overwrites an existing key in place, or appends a new key
   * at the end of the order.
   */
  function Put<K(!new), V>(m: OrderedMap<K, V>, k: K, v: V): (r: OrderedMap<K, V>)
    ensures Valid(m) ==> Valid(r)
    ensures Get(r, k) == Some(v)
    ensures forall k' :: k' != k ==> Get(r, k') == Get(m, k')
    ensures |r.keys| >= |m.keys| && r.keys[..|m.keys|] == m.keys
    ensures k in m.items ==> r.keys == m.keys
  {
    OrderedMap(if k in m.items then m.keys else m.keys + [k], m.items[k := v])
  }

  /** The entries in insertion order: every stored pair exactly once. */
  function Entries<K(!new), V>(m: OrderedMap<K, V>): (r: seq<(K, V)>)
    requires Valid(m)
    ensures |r| == |m.keys|
    ensures forall i :: 0 <= i < |r| ==> r[i].0 == m.keys[i] && Get(m, r[i].0) == Some(r[i].1)
    ensures forall i, j :: 0 <= i < j < |r| ==> r[i].0 != r[j].0
    ensures forall k :: k in m.items ==> (k, m.items[k]) in r
  {
    var r := seq(|m.keys|, i requires 0 <= i < |m.keys| => (m.keys[i], m.items[m.keys[i]]));
    assert forall k :: k in m.items ==> (k, m.items[k]) in r by {
      forall k | k in m.items
        ensures (k, m.items[k]) in r
      {
        var i :| 0 <= i < |m.keys| && m.keys[i] == k;
        assert r[i] == (k, m.items[k]);
      }
    }
    r
  }
}
