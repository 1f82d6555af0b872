/** Keyed collections that remember insertion order, as a JavaScript `Map` does. */
module OrderedMaps {

  ghost predicate Distinct<K>(ks: seq<K>) {
    forall i, j :: 0 <= i < j < |ks| ==> ks[i] != ks[j]
  }

  /** `ks` without `k`, the others in their order. */
  function Without<K(==, !new)>(ks: seq<K>, k: K): (r: seq<K>)
    ensures forall x :: x in r <==> x in ks && x != k
    ensures Distinct(ks) ==> Distinct(r)
  {
    if ks == [] then []
    else if ks[0] == k then Without(ks[1..], k)
    else
      assert Distinct(ks) ==> ks[0] !in Without(ks[1..], k);
      [ks[0]] + Without(ks[1..], k)
  }

  datatype Entries<K(==, !new), V> = Entries(keys: seq<K>, vals: map<K, V>) {
    ghost predicate Valid() {
      && Distinct(keys)
      && vals.Keys == (set k | k in keys)
    }

    /** Assigning to a present key keeps its place; a new key goes last. */
    function Set(k: K, v: V): (r: Entries<K, V>)
      requires Valid()
      ensures r.Valid()
      ensures r.vals == vals[k := v]
    {
      Entries(if k in vals then keys else keys + [k], vals[k := v])
    }

    function Delete(k: K): (r: Entries<K, V>)
      requires Valid()
      ensures r.Valid()
      ensures r.vals == vals - {k}
    {
      Entries(Without(keys, k), vals - {k})
    }
  }

  type OrderedMap<K(==, !new), V> = m: Entries<K, V> | m.Valid() witness Entries([], map[])

  function Empty<K(==, !new), V>(): OrderedMap<K, V> {
    Entries([], map[])
  }
}
