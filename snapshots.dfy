/** `Dictionary<K, V>.Values.ToArray()`, the snapshot both trackers hand out. */
module Snapshots {

  /** No two keys of `m` map to the same value. */
  ghost predicate Injective<K, V>(m: map<K, V>)
  {
    forall a, b | a in m && b in m && a != b :: m[a] != m[b]
  }

  /**
   * The values of `m`, one entry per key (the enumeration order of the dictionary is not modelled):
   * exactly the values of the map, and no value twice when no two keys share one.
   */
  method Values<K, V(==)>(m: map<K, V>) returns (r: seq<V>)
    ensures |r| == |m|
    ensures forall v :: v in r <==> v in m.Values
    ensures Injective(m) ==> forall i, j | 0 <= i < j < |r| :: r[i] != r[j]
  {
    var rest := m.Keys;
    ghost var keys: seq<K> := [];
    r := [];
    while rest != {}
      invariant rest <= m.Keys
      invariant |r| == |keys| && |r| + |rest| == |m.Keys|
      invariant forall i | 0 <= i < |keys| :: keys[i] in m && keys[i] !in rest && r[i] == m[keys[i]]
      invariant forall k | k in m && k !in rest :: k in keys
      invariant forall i, j | 0 <= i < j < |keys| :: keys[i] != keys[j]
      decreases |rest|
    {
      var k :| k in rest;
      r := r + [m[k]];
      keys := keys + [k];
      rest := rest - {k};
    }
    forall v | v in m.Values
      ensures v in r
    {
      var k :| k in m && m[k] == v;
      var i :| 0 <= i < |keys| && keys[i] == k;
      assert r[i] == v;
    }
  }
}
