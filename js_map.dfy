/** The JavaScript `Map` that the store and the surname utilities use: a keyed
    collection that remembers the order in which keys were first set.
    `set` on a key that is already present replaces its value in place,
    `delete` removes the key from the order, and `values()` iterates in that order. */
module JsMaps {
  import opened Wrappers
  import Lists

  datatype OrderedMap<K(!new), V> = OrderedMap(keys: seq<K>, entries: map<K, V>)
  {
    /** Every key occurs once in the order, and the order holds exactly the keys of the entries. */
    ghost predicate Valid()
    {
      && (forall i, j :: 0 <= i < j < |keys| ==> keys[i] != keys[j])
      && (forall k :: k in entries <==> k in keys)
    }

    predicate Has(k: K)
    {
      k in entries
    }

    /** `m.get(k)`: absent keys give `None` (`undefined`), never an error. */
    function Get(k: K): (r: Option<V>)
      ensures r.Some? <==> k in entries
      ensures r.Some? ==> r.value == entries[k]
    {
      if k in entries then Some(entries[k]) else None
    }

    /** `m.set(k, v)` */
    function Set(k: K, v: V): (m: OrderedMap<K, V>)
      requires Valid()
      ensures m.Valid()
      ensures m.entries == entries[k := v]
      ensures k in entries ==> m.keys == keys
      ensures k !in entries ==> m.keys == keys + [k]
    {
      if k in entries then OrderedMap(keys, entries[k := v])
      else OrderedMap(keys + [k], entries[k := v])
    }

    /** `m.delete(k)`: reports whether the key was present, and removes it. */
    function Delete(k: K): (res: (OrderedMap<K, V>, bool))
      requires Valid()
      ensures res.0.Valid()
      ensures res.1 <==> k in entries
      ensures res.0.entries == entries - {k}
      ensures k !in entries ==> res.0 == this
    {
      if k !in entries then (this, false)
      else
        var i := Lists.IndexOf(keys, k);
        RemoveAtKeys(keys, i);
        (OrderedMap(keys[..i] + keys[i + 1..], entries - {k}), true)
    }

    /** `Array.from(m.values())`: the values in key order. */
    function Values(): (vs: seq<V>)
      requires Valid()
      ensures |vs| == |keys|
      ensures forall i :: 0 <= i < |keys| ==> vs[i] == entries[keys[i]]
    {
      seq(|keys|, i requires 0 <= i < |keys| => entries[keys[i]])
    }
  }

  /** Removing position `i` from a list of distinct keys leaves the others, still distinct. */
  lemma RemoveAtKeys<K>(keys: seq<K>, i: nat)
    requires i < |keys|
    requires forall a, b :: 0 <= a < b < |keys| ==> keys[a] != keys[b]
    ensures var r := keys[..i] + keys[i + 1..];
      && (forall a, b :: 0 <= a < b < |r| ==> r[a] != r[b])
      && (forall x :: x in r <==> x in keys && x != keys[i])
  {
    var r := keys[..i] + keys[i + 1..];
    assert forall a :: 0 <= a < |r| ==> r[a] == keys[if a < i then a else a + 1];
    forall x | x in keys && x != keys[i] ensures x in r {
      var j :| 0 <= j < |keys| && keys[j] == x;
      assert r[if j < i then j else j - 1] == x;
    }
  }

  function Empty<K(!new), V>(): (m: OrderedMap<K, V>)
    ensures m.Valid() && m.entries == map[] && m.Values() == []
  {
    OrderedMap([], map[])
  }

  /** Setting a new key appends its value to the iteration order and leaves the
      earlier values where they were. */
  lemma SetNewValues<K(!new), V>(m: OrderedMap<K, V>, k: K, v: V)
    requires m.Valid() && k !in m.entries
    ensures m.Set(k, v).Values() == m.Values() + [v]
  {
    var m' := m.Set(k, v);
    assert forall i :: 0 <= i < |m.keys| ==> m.keys[i] != k;
    assert forall i :: 0 <= i < |m.keys| ==> m'.Values()[i] == m.Values()[i];
  }

  /** Setting a present key replaces its value at its old position and nothing else. */
  lemma SetExistingValues<K(!new), V>(m: OrderedMap<K, V>, k: K, v: V)
    requires m.Valid() && k in m.entries
    ensures var i := Lists.IndexOf(m.keys, k);
      0 <= i && m.Set(k, v).Values() == m.Values()[i := v]
  {
  }

  /** Deleting a key removes its value from the iteration order and keeps the
      others in their order. */
  lemma DeleteValues<K(!new), V>(m: OrderedMap<K, V>, k: K)
    requires m.Valid() && k in m.entries
    ensures var i := Lists.IndexOf(m.keys, k);
      0 <= i && m.Delete(k).0.Values() == m.Values()[..i] + m.Values()[i + 1..]
  {
    var i := Lists.IndexOf(m.keys, k);
    var d := m.Delete(k).0;
    assert d.keys == m.keys[..i] + m.keys[i + 1..];
    var vs, ws := m.Values(), d.Values();
    forall j | 0 <= j < |ws| ensures ws[j] == (vs[..i] + vs[i + 1..])[j] {
      EntryAfterDelete(m, i, j);
      RemovedAt(vs, i, j);
    }
  }

  /** The `j`-th key left after deleting the key at position `i` still maps to
      the value it had. */
  lemma EntryAfterDelete<K(!new), V>(m: OrderedMap<K, V>, i: nat, j: nat)
    requires m.Valid() && i < |m.keys| && j < |m.keys| - 1
    ensures var j' := if j < i then j else j + 1;
      (m.entries - {m.keys[i]})[(m.keys[..i] + m.keys[i + 1..])[j]] == m.entries[m.keys[j']]
  {
    RemovedAt(m.keys, i, j);
  }

  /** Position `j` of a sequence with position `i` removed. */
  lemma RemovedAt<T>(s: seq<T>, i: nat, j: nat)
    requires i < |s| && j < |s| - 1
    ensures (s[..i] + s[i + 1..])[j] == s[if j < i then j else j + 1]
  {
  }
}
