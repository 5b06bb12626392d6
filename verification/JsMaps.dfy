/** JavaScript's insertion-ordered `Map`: `set` on a present key keeps its place,
    `delete` and a later `set` move it to the end. */
module JsMaps {

  lemma Associates<T>(a: seq<T>, b: seq<T>, c: seq<T>)
    ensures (a + b) + c == a + (b + c)
  {
  }

  ghost predicate Distinct<K>(keys: seq<K>) {
    forall i, j :: 0 <= i < j < |keys| ==> keys[i] != keys[j]
  }

  function Without<K(==, !new)>(keys: seq<K>, key: K): (rest: seq<K>)
    ensures forall k :: k in rest <==> k in keys && k != key
    ensures Distinct(keys) ==> Distinct(rest)
  {
    if keys == [] then []
    else
      assert forall i :: 0 < i < |keys| ==> keys[i] == keys[1..][i - 1];
      if keys[0] == key then Without(keys[1..], key)
    else
      var tail := Without(keys[1..], key);
      assert Distinct(keys) ==> keys[0] !in keys[1..];
      [keys[0]] + tail
  }

  lemma {:induction false} WithoutMiddle<K(!new)>(a: seq<K>, key: K, b: seq<K>)
    requires key !in a && key !in b
    ensures Without(a + [key] + b, key) == a + b
  {
    if a == [] {
      WithoutNone(b, key);
      assert a + [key] + b == [key] + b && ([key] + b)[1..] == b;
    } else {
      WithoutMiddle(a[1..], key, b);
      assert (a + [key] + b)[1..] == a[1..] + [key] + b;
    }
  }

  lemma {:induction false} WithoutNone<K(!new)>(keys: seq<K>, key: K)
    requires key !in keys
    ensures Without(keys, key) == keys
  {
    if keys != [] {
      WithoutNone(keys[1..], key);
    }
  }

  datatype JsMap<K(==, !new), V> = JsMap(keys: seq<K>, data: map<K, V>) {

    ghost predicate Valid() {
      Distinct(keys) && forall k :: k in keys <==> k in data
    }

    function Set(key: K, value: V): (m: JsMap<K, V>)
      ensures Valid() ==> m.Valid()
    {
      JsMap(if key in data then keys else keys + [key], data[key := value])
    }

    function Delete(key: K): (m: JsMap<K, V>)
      ensures Valid() ==> m.Valid()
    {
      if key in data then JsMap(Without(keys, key), data - {key}) else this
    }

    function Get(key: K, default: V): V {
      if key in data then data[key] else default
    }

    /** The values in insertion order. */
    function Values(): seq<V> {
      Lookup(keys, data)
    }
  }

  function Lookup<K(==, !new), V>(keys: seq<K>, data: map<K, V>): seq<V> {
    if keys == [] then []
    else (if keys[0] in data then [data[keys[0]]] else []) + Lookup(keys[1..], data)
  }

  function Empty<K(==, !new), V>(): (m: JsMap<K, V>)
    ensures m.Valid()
  {
    JsMap([], map[])
  }

  /** The first `n` entries in insertion order. */
  ghost function Prefix<K(!new), V>(m: JsMap<K, V>, n: nat): JsMap<K, V>
    requires n <= |m.keys|
  {
    JsMap(m.keys[..n], map k | k in m.data && k in m.keys[..n] :: m.data[k])
  }

  /** Setting the entries one after the other rebuilds the map. */
  lemma PrefixStep<K(!new), V>(m: JsMap<K, V>, n: nat)
    requires m.Valid() && n < |m.keys|
    ensures m.keys[n] in m.data && m.keys[n] !in Prefix(m, n).data
    ensures Prefix(m, n).Set(m.keys[n], m.data[m.keys[n]]) == Prefix(m, n + 1)
  {
    var key := m.keys[n];
    assert key in m.keys && key !in m.keys[..n];
    assert m.keys[..n + 1] == m.keys[..n] + [key];
    assert Prefix(m, n).data[key := m.data[key]] == Prefix(m, n + 1).data;
  }

  lemma PrefixEnds<K(!new), V>(m: JsMap<K, V>)
    requires m.Valid()
    ensures Prefix(m, 0) == Empty() && Prefix(m, |m.keys|) == m
  {
    assert m.keys[..|m.keys|] == m.keys;
    assert Prefix(m, 0).data == map[];
  }
}
