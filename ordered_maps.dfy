/**
  A JavaScript `Map`: a finite map that also remembers the order in which its keys were first
  inserted. `set` on a present key keeps the key's position, `delete` drops the key, and
  iteration (`values()`) follows insertion order.
 */
module OrderedMaps {
  import opened Wrappers

  /** `keys` lists the keys in insertion order; `entries` holds the value of each key. */
  datatype OrderedMap<K(==,!new), V> = OrderedMap(keys: seq<K>, entries: map<K, V>) {

    ghost predicate Valid() {
      && Distinct(keys)
      && (forall k :: k in entries <==> k in keys)
    }

    function Size(): nat {
      |keys|
    }

    function Get(k: K): (r: Option<V>)
      ensures r.Some? <==> k in entries
      ensures r.Some? ==> r.value == entries[k]
    {
      if k in entries then Some(entries[k]) else None
    }

    /** `Map.prototype.set`. */
    function Set(k: K, v: V): (r: OrderedMap<K, V>)
      requires Valid()
      ensures r.Valid()
      ensures r.entries == entries[k := v]
      ensures k in entries ==> r.keys == keys
      ensures k !in entries ==> r.keys == keys + [k]
    {
      if k in entries then OrderedMap(keys, entries[k := v]) else OrderedMap(keys + [k], entries[k := v])
    }

    /** Setting a key twice is setting it to the second value. */
    lemma SetTwice(k: K, v1: V, v2: V)
      requires Valid()
      ensures Set(k, v1).Set(k, v2) == Set(k, v2)
    {
      assert entries[k := v1][k := v2] == entries[k := v2];
    }

    /** Setting a key to the value it already holds changes nothing. */
    lemma SetSame(k: K)
      requires Valid() && k in entries
      ensures Set(k, entries[k]) == this
    {
      assert entries[k := entries[k]] == entries;
    }

    /** `Map.prototype.delete`. */
    function Remove(k: K): (r: OrderedMap<K, V>)
      requires Valid()
      ensures r.Valid()
      ensures r.entries == entries - {k}
      ensures k !in entries ==> r.keys == keys
      ensures r.keys == Without(keys, k)
    {
      OrderedMap(Without(keys, k), entries - {k})
    }

    /** `Map.prototype.values()`, in insertion order. */
    function Values(): (vs: seq<V>)
      requires Valid()
      ensures |vs| == |keys|
      ensures forall i :: 0 <= i < |keys| ==> vs[i] == entries[keys[i]]
    {
      seq(|keys|, i requires 0 <= i < |keys| => entries[keys[i]])
    }
  }

  function Empty<K(==,!new), V>(): (m: OrderedMap<K, V>)
    ensures m.Valid() && m.Size() == 0
  {
    OrderedMap([], map[])
  }

  predicate Distinct<K(==)>(s: seq<K>) {
    forall i, j :: 0 <= i < j < |s| ==> s[i] != s[j]
  }

  /** `s` with every occurrence of `k` dropped, the rest in order. */
  function Without<K(==,!new)>(s: seq<K>, k: K): (w: seq<K>)
    ensures forall x :: x in w <==> x in s && x != k
    ensures multiset(w) == multiset(s)[k := 0]
    ensures k !in s ==> w == s
    ensures Distinct(s) ==> Distinct(w)
  {
    if s == [] then []
    else
      assert s == [s[0]] + s[1..];
      if s[0] == k then Without(s[1..], k)
      else
        var w := Without(s[1..], k);
        assert Distinct(s) ==> s[0] !in s[1..] && Distinct(s[1..]);
        [s[0]] + w
  }

  /**
    Dropping a key from a concatenation drops it from each part and keeps the parts in order:
    together with the single-key case, the remaining keys keep their relative order.
   */
  lemma {:induction false} WithoutAppend<K(!new)>(a: seq<K>, b: seq<K>, k: K)
    ensures Without(a + b, k) == Without(a, k) + Without(b, k)
  {
    if a == [] {
      assert a + b == b;
    } else {
      var c := a + b;
      assert c[0] == a[0] && c[1..] == a[1..] + b;
      WithoutAppend(a[1..], b, k);
      var rest := Without(a[1..], k) + Without(b, k);
      if a[0] == k {
        assert Without(c, k) == rest;
      } else {
        assert Without(c, k) == [a[0]] + rest;
        assert Without(a, k) == [a[0]] + Without(a[1..], k);
      }
    }
  }

  /**
    Sets every value of `vs` under the key `key` gives it, in order: what `fromRaw` does with a
    list of entries.
   */
  function Load<K(==,!new), V>(m: OrderedMap<K, V>, vs: seq<V>, key: V -> K): (r: OrderedMap<K, V>)
    requires m.Valid()
    ensures r.Valid()
    decreases |vs|
  {
    if vs == [] then m else Load(m, vs[..|vs| - 1], key).Set(key(vs[|vs| - 1]), vs[|vs| - 1])
  }

  /**
    Loading the values of a map into an empty map rebuilds it, order included, provided each
    value is stored under the key it determines.
   */
  lemma LoadValues<K(!new), V>(m: OrderedMap<K, V>, key: V -> K)
    requires m.Valid()
    requires forall k :: k in m.entries ==> key(m.entries[k]) == k
    ensures Load(Empty(), m.Values(), key) == m
  {
    LoadAll(m.Values(), m.keys, m.entries, key);
  }

  /** `r` holds exactly the keys `ks`, in that order, each with the value `ref` gives it. */
  ghost predicate Agrees<K(!new), V>(r: OrderedMap<K, V>, ks: seq<K>, ref: map<K, V>) {
    && r.keys == ks
    && (forall x :: x in r.entries <==> x in ks)
    && (forall x :: x in r.entries ==> x in ref && r.entries[x] == ref[x])
  }

  /** Loading values listed under distinct keys they determine gives a map holding exactly those. */
  lemma {:induction false} LoadAll<K(!new), V>(vs: seq<V>, ks: seq<K>, ref: map<K, V>, key: V -> K)
    requires |vs| == |ks| && Distinct(ks)
    requires forall i :: 0 <= i < |ks| ==> ks[i] in ref && vs[i] == ref[ks[i]] && key(vs[i]) == ks[i]
    ensures Agrees(Load(Empty(), vs, key), ks, ref)
    decreases |vs|
  {
    if |vs| > 0 {
      var n := |vs| - 1;
      assert Distinct(ks[..n]);
      LoadAll(vs[..n], ks[..n], ref, key);
      assert ks[..n] + [ks[n]] == ks;
      SetNewKey(Load(Empty(), vs[..n], key), ks[..n], ref, ks[n]);
    }
  }

  /** Setting a key not yet present, to the value a reference map holds for it, extends the agreement. */
  lemma SetNewKey<K(!new), V>(prev: OrderedMap<K, V>, ks: seq<K>, ref: map<K, V>, k: K)
    requires prev.Valid() && Agrees(prev, ks, ref) && k in ref
    requires Distinct(ks + [k])
    ensures Agrees(prev.Set(k, ref[k]), ks + [k], ref)
  {
    forall i | 0 <= i < |ks|
      ensures ks[i] != k
    {
      assert (ks + [k])[i] == ks[i] && (ks + [k])[|ks|] == k;
    }
  }

  /** `Array.from(m.values())`: the values collected one key at a time. */
  method ValueList<K(!new), V>(m: OrderedMap<K, V>) returns (vs: seq<V>)
    requires m.Valid()
    ensures vs == m.Values()
  {
    vs := [];
    for i := 0 to |m.keys|
      invariant |vs| == i
      invariant forall j :: 0 <= j < i ==> vs[j] == m.entries[m.keys[j]]
    {
      vs := vs + [m.entries[m.keys[i]]];
    }
  }

  /** The loop of `fromRaw`: each value set under its key, in order. */
  method LoadInto<K(!new), V>(m: OrderedMap<K, V>, vs: seq<V>, key: V -> K) returns (r: OrderedMap<K, V>)
    requires m.Valid()
    ensures r == Load(m, vs, key)
  {
    r := m;
    for i := 0 to |vs|
      invariant r == Load(m, vs[..i], key)
    {
      assert vs[..i + 1][..i] == vs[..i];
      r := r.Set(key(vs[i]), vs[i]);
    }
    assert vs[..|vs|] == vs;
  }
}
