// The JavaScript Map: keys are iterated in the order of their first insertion.
module OrderedMaps {
  predicate NoDuplicates<T(==)>(s: seq<T>) {
    forall i, j :: 0 <= i < j < |s| ==> s[i] != s[j]
  }

  datatype OrderedMap<K(==,!new), V> = OrderedMap(keys: seq<K>, at: map<K, V>) {
    ghost predicate Valid() {
      && NoDuplicates(keys)
      && (forall k :: k in keys <==> k in at)
    }

    predicate Has(k: K) {
      k in at
    }

    function Set(k: K, v: V): (m: OrderedMap<K, V>)
      requires Valid()
      ensures m.Valid()
      ensures m.at == at[k := v]
      ensures keys <= m.keys
    {
      if k in at then OrderedMap(keys, at[k := v]) else OrderedMap(keys + [k], at[k := v])
    }
  }

  /** The keys that `known` lacks, in their order. */
  function NewKeys<K(==), V>(keys: seq<K>, known: map<K, V>): seq<K> {
    if keys == [] then []
    else NewKeys(keys[..|keys| - 1], known) +
         if keys[|keys| - 1] in known then [] else [keys[|keys| - 1]]
  }

  lemma NextName<K(!new), V>(table: OrderedMap<K, V>, i: nat)
    requires table.Valid() && i < |table.keys|
    ensures table.keys[i] in table.at && table.keys[i] !in table.keys[..i]
    ensures table.keys[..i + 1] == table.keys[..i] + [table.keys[i]]
  {
    assert table.keys[i] in table.keys;
  }

  lemma {:induction false} NewKeysAre<K(!new), V>(keys: seq<K>, known: map<K, V>)
    ensures forall n :: n in NewKeys(keys, known) <==> n in keys && n !in known
  {
    if keys != [] {
      NewKeysAre(keys[..|keys| - 1], known);
    }
  }

  lemma NewKeysStep<K(!new), V>(keys: seq<K>, key: K, known: map<K, V>)
    ensures NewKeys(keys + [key], known) == NewKeys(keys, known) + if key in known then [] else [key]
  {
    assert (keys + [key])[..|keys|] == keys;
  }

  function Empty<K(==,!new), V>(): (m: OrderedMap<K, V>)
    ensures m.Valid() && m.at == map[]
  {
    OrderedMap([], map[])
  }
}
