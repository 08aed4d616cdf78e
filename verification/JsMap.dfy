/**
 JavaScript's `Map`. Iteration follows the order in which keys were first set;
 setting a key again replaces its value and keeps its place.
 */
module JsMap {

  datatype RawMap<K, V> = RawMap(keys: seq<K>, vals: map<K, V>) {

    ghost predicate Valid() {
      && (forall i, j :: 0 <= i < j < |keys| ==> keys[i] != keys[j])
      && (forall k :: k in keys ==> k in vals)
      && (forall k :: k in vals ==> k in keys)
    }
  }

  type JsMap<K(==), V> = m: RawMap<K, V> | m.Valid() witness RawMap([], map[])

  function Empty<K(==), V>(): JsMap<K, V> {
    RawMap([], map[])
  }

  function Put<K(==), V>(m: JsMap<K, V>, k: K, v: V): (r: JsMap<K, V>)
    ensures k in m.vals ==> |r.keys| == |m.keys|
    ensures k !in m.vals ==> |r.keys| == |m.keys| + 1
  {
    var keys := if k in m.vals then m.keys else m.keys + [k];
    RawMap(keys, m.vals[k := v])
  }

  function Values<K(==), V>(m: JsMap<K, V>): (r: seq<V>)
    ensures |r| == |m.keys|
    ensures forall i :: 0 <= i < |r| ==> m.keys[i] in m.vals && r[i] == m.vals[m.keys[i]]
  {
    assert forall i :: 0 <= i < |m.keys| ==> m.keys[i] in m.keys;
    seq(|m.keys|, i requires 0 <= i < |m.keys| => m.vals[m.keys[i]])
  }

  /** The place of a key in iteration order. */
  ghost function IndexOf<K, V>(m: JsMap<K, V>, k: K): (i: nat)
    requires k in m.vals
    ensures i < |m.keys| && m.keys[i] == k
  {
    var i :| 0 <= i < |m.keys| && m.keys[i] == k;
    i
  }

  /** Setting a key either extends the values or replaces exactly one of them. */
  lemma PutValues<K, V>(m: JsMap<K, V>, k: K, v: V)
    ensures k !in m.vals ==> Values(Put(m, k, v)) == Values(m) + [v]
    ensures k in m.vals ==> Values(Put(m, k, v)) == Values(m)[IndexOf(m, k) := v]
  {
  }

  lemma BagWithout<V>(s: seq<V>, i: nat, v: V)
    requires i < |s|
    ensures multiset(s[i := v]) == multiset(s[..i]) + multiset(s[i + 1..]) + multiset{v}
  {
    assert s[i := v] == s[..i] + [v] + s[i + 1..];
  }

  /** What a map holds, as a bag: a new key adds its value, an old one swaps it. */
  lemma PutBag<K, V>(m: JsMap<K, V>, k: K, v: V)
    ensures k !in m.vals ==> multiset(Values(Put(m, k, v))) == multiset(Values(m)) + multiset{v}
    ensures k in m.vals ==>
              && multiset(Values(Put(m, k, v))) == multiset(Values(m)) - multiset{m.vals[k]} + multiset{v}
              && m.vals[k] in multiset(Values(m))
  {
    PutValues(m, k, v);
    if k in m.vals {
      var i := IndexOf(m, k);
      var s := Values(m);
      BagWithout(s, i, s[i]);
      BagWithout(s, i, v);
      assert s[i := s[i]] == s;
    }
  }
}
