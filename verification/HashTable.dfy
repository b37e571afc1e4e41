/** A hash table: keys with the same hash share a bucket, which is searched for an equal key. */
module HashTable {
  import opened Wrappers

  datatype Table<!K, V> = Table(hash: K -> nat, buckets: map<nat, seq<(K, V)>>)

  function Empty<K(==), V>(hash: K -> nat): Table<K, V> {
    Table(hash, map[])
  }

  function Bucket<K(==), V>(t: Table<K, V>, h: nat): seq<(K, V)> {
    if h in t.buckets then t.buckets[h] else []
  }

  function Find<K(==), V>(bucket: seq<(K, V)>, k: K): Option<V> {
    if bucket == [] then None
    else if bucket[0].0 == k then Some(bucket[0].1)
    else Find(bucket[1..], k)
  }

  function Lookup<K(==), V>(t: Table<K, V>, k: K): Option<V> {
    Find(Bucket(t, t.hash(k)), k)
  }

  // The insertion of a key that has no equal in the table.
  function Insert<K(==), V>(t: Table<K, V>, k: K, v: V): (r: Table<K, V>)
    requires Lookup(t, k).None?
  {
    t.(buckets := t.buckets[t.hash(k) := Bucket(t, t.hash(k)) + [(k, v)]])
  }

  lemma {:induction false} AddFinds<K, V>(bucket: seq<(K, V)>, k: K, v: V, other: K)
    requires Find(bucket, k).None?
    ensures Find(bucket + [(k, v)], other) == if other == k then Some(v) else Find(bucket, other)
  {
    var longer := bucket + [(k, v)];
    if bucket != [] {
      assert longer[1..] == bucket[1..] + [(k, v)];
      AddFinds(bucket[1..], k, v, other);
    }
  }

  /** An insertion is seen under its own key and under no other, whatever keys share its hash. */
  lemma InsertLookup<K, V>(t: Table<K, V>, k: K, v: V)
    requires Lookup(t, k).None?
    ensures forall other :: Lookup(Insert(t, k, v), other) == if other == k then Some(v) else Lookup(t, other)
  {
    forall other
      ensures Lookup(Insert(t, k, v), other) == if other == k then Some(v) else Lookup(t, other)
    {
      AddFinds(Bucket(t, t.hash(k)), k, v, other);
    }
  }
}
