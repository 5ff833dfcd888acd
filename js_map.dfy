/**
 * A JavaScript `Map<number, V>`: an association from keys to values that
 * also remembers the order in which keys were first inserted. `set` on a key
 * already present replaces its value in place; `delete` removes the key from
 * the order; `values()` enumerates in insertion order.
 */
module JsMap {
  import opened Wrappers

  datatype OrderedMap<V> = OrderedMap(keys: seq<int>, entries: map<int, V>) {

    /** The insertion order lists every key exactly once. */
    ghost predicate Valid() {
      && (forall i, j :: 0 <= i < j < |keys| ==> keys[i] != keys[j])
      && (forall k :: k in entries <==> k in keys)
      && (forall i :: 0 <= i < |keys| ==> keys[i] in entries)
    }

    /** `map.has(k)` */
    predicate Has(k: int) {
      k in entries
    }

    /** `map.get(k)`: the value stored under `k`, or `undefined`. */
    function Get(k: int): (r: Option<V>)
      ensures r.Some? <==> Has(k)
      ensures r.Some? ==> r.value == entries[k]
    {
      if k in entries then Some(entries[k]) else None
    }

    /** `Array.from(map.values())`: the values in key insertion order. */
    function Values(): (vs: seq<V>)
      requires Valid()
      ensures |vs| == |keys|
      ensures forall i :: 0 <= i < |keys| ==> vs[i] == entries[keys[i]]
    {
      seq(|keys|, i requires 0 <= i < |keys| => assert keys[i] in keys; entries[keys[i]])
    }

    /**
     * `map.set(k, v)`: afterwards `k` maps to `v` and every other key keeps its
     * value; a new key goes to the end of the order, an existing key keeps its
     * place.
     */
    function Set(k: int, v: V): (m: OrderedMap<V>)
      requires Valid()
      ensures m.Valid()
      ensures m.Get(k) == Some(v)
      ensures forall j :: j != k ==> m.Get(j) == Get(j)
      ensures Has(k) ==> m.keys == keys
      ensures !Has(k) ==> m.keys == keys + [k] && m.Values() == Values() + [v]
    {
      if k in entries then OrderedMap(keys, entries[k := v])
      else
        var m := OrderedMap(keys + [k], entries[k := v]);
        assert m.Values() == Values() + [v] by {
          forall i | 0 <= i < |keys| ensures m.Values()[i] == Values()[i] {
            assert keys[i] != k;
          }
        }
        m
    }

    /**
     * `map.delete(k)`: afterwards `k` is absent, every other key keeps its
     * value, and the remaining keys keep their relative order.
     */
    function Delete(k: int): (m: OrderedMap<V>)
      requires Valid()
      ensures m.Valid()
      ensures m.Get(k) == None
      ensures forall j :: j != k ==> m.Get(j) == Get(j)
      ensures m.keys == Without(keys, k)
    {
      OrderedMap(Without(keys, k), entries - {k})
    }
  }

  /** An empty `new Map()`. */
  function Empty<V>(): (m: OrderedMap<V>)
    ensures m.Valid() && m.Values() == []
    ensures forall k :: m.Get(k) == None
  {
    OrderedMap([], map[])
  }

  /** The sequence `s` with every occurrence of `k` removed, order kept. */
  function Without(s: seq<int>, k: int): (r: seq<int>)
    ensures k !in r
    ensures forall j :: j != k ==> (j in r <==> j in s)
    ensures |r| <= |s|
    ensures (forall a, b :: 0 <= a < b < |s| ==> s[a] != s[b]) ==> (forall a, b :: 0 <= a < b < |r| ==> r[a] != r[b])
  {
    if s == [] then []
    else if s[0] == k then Without(s[1..], k)
    else
      assert (forall a, b :: 0 <= a < b < |s| ==> s[a] != s[b]) ==> s[0] !in s[1..];
      [s[0]] + Without(s[1..], k)
  }

  /** Removing a key keeps the relative order of every two remaining keys. */
  lemma {:induction false} WithoutKeepsOrder(s: seq<int>, k: int, i: nat, j: nat)
    requires i < j < |s| && s[i] != k && s[j] != k
    ensures exists a, b :: 0 <= a < b < |Without(s, k)| && Without(s, k)[a] == s[i] && Without(s, k)[b] == s[j]
  {
    var t := Without(s[1..], k);
    if s[0] == k {
      assert i > 0;
      WithoutKeepsOrder(s[1..], k, i - 1, j - 1);
      assert Without(s, k) == t;
    } else {
      var r := Without(s, k);
      assert r == [s[0]] + t;
      if i == 0 {
        assert s[j] == s[1..][j - 1] && s[j] in s[1..];
        assert s[j] in t;
        var b :| 0 <= b < |t| && t[b] == s[j];
        assert r[0] == s[i] && r[b + 1] == s[j];
      } else {
        WithoutKeepsOrder(s[1..], k, i - 1, j - 1);
        var a, b :| 0 <= a < b < |t| && t[a] == s[1..][i - 1] && t[b] == s[1..][j - 1];
        assert r[a + 1] == s[i] && r[b + 1] == s[j];
      }
    }
  }
}
