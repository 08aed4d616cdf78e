/**
 Newest-wins coalescing, the rule both location relays apply between two
 flushes: one entry per key, the greatest timestamp, the latest arrival on ties.
 */
module Coalesce {
  import opened JsMap
  import opened FirstOccurrence

  /** A ping: whom it locates, when it was taken (milliseconds), and the rest. */
  datatype Ping<K, V> = Ping(key: K, at: int, body: V)

  /** One arrival: an older ping for a buffered key is discarded. */
  function Offer<K(==), V>(m: JsMap<K, Ping<K, V>>, p: Ping<K, V>): JsMap<K, Ping<K, V>> {
    if p.key in m.vals && m.vals[p.key].at > p.at then m else Put(m, p.key, p)
  }

  /** The buffer after a window of arrivals, oldest arrival first. */
  function Window<K(==), V>(pings: seq<Ping<K, V>>): JsMap<K, Ping<K, V>> {
    if pings == [] then Empty()
    else Offer(Window(pings[..|pings| - 1]), pings[|pings| - 1])
  }

  /** Independent reading of "newest": no same-key ping is later, nor as late and arrived after. */
  ghost predicate IsNewest<K, V>(pings: seq<Ping<K, V>>, i: nat) {
    && i < |pings|
    && forall j :: 0 <= j < |pings| && pings[j].key == pings[i].key ==>
         pings[j].at < pings[i].at || (pings[j].at == pings[i].at && j <= i)
  }

  ghost predicate Holds<K, V>(pings: seq<Ping<K, V>>, k: K, p: Ping<K, V>) {
    exists i: nat :: i < |pings| && IsNewest(pings, i) && pings[i] == p && p.key == k
  }

  lemma WindowStep<K, V>(pings: seq<Ping<K, V>>, p: Ping<K, V>)
    ensures Window(pings + [p]) == Offer(Window(pings), p)
  {
    assert (pings + [p])[..|pings + [p]| - 1] == pings;
  }

  /** A ping outlived by nothing stays the newest unless the arrival beats it. */
  lemma HoldsKept<K, V>(pings: seq<Ping<K, V>>, p: Ping<K, V>, k: K, q: Ping<K, V>)
    requires Holds(pings, k, q)
    requires p.key != k || p.at < q.at
    ensures Holds(pings + [p], k, q)
  {
    var i: nat :| i < |pings| && IsNewest(pings, i) && pings[i] == q && q.key == k;
    assert IsNewest(pings + [p], i);
  }

  /** The arrival is the newest of its key when the buffer held nothing newer. */
  lemma HoldsArrival<K, V>(pings: seq<Ping<K, V>>, p: Ping<K, V>)
    requires (exists q :: Holds(pings, p.key, q) && q.at <= p.at) || (forall i :: 0 <= i < |pings| ==> pings[i].key != p.key)
    ensures Holds(pings + [p], p.key, p)
  {
    assert IsNewest(pings + [p], |pings|);
  }

  ghost predicate HoldsAll<K, V>(pings: seq<Ping<K, V>>, m: JsMap<K, Ping<K, V>>) {
    && (forall i :: 0 <= i < |pings| ==> pings[i].key in m.vals)
    && (forall k :: k in m.vals ==> Holds(pings, k, m.vals[k]))
  }

  lemma OfferHolds<K, V>(pings: seq<Ping<K, V>>, m: JsMap<K, Ping<K, V>>, p: Ping<K, V>)
    requires HoldsAll(pings, m)
    ensures HoldsAll(pings + [p], Offer(m, p))
  {
    var after := Offer(m, p);
    forall k | k in after.vals ensures Holds(pings + [p], k, after.vals[k]) {
      if k == p.key && after.vals[k] == p {
        if k !in m.vals {
          assert forall i :: 0 <= i < |pings| ==> pings[i].key != k;
        }
        HoldsArrival(pings, p);
      } else {
        HoldsKept(pings, p, k, m.vals[k]);
      }
    }
  }

  /** Exactly the keys that pinged are buffered, each with its newest ping. */
  lemma {:induction false} WindowHoldsNewest<K, V>(pings: seq<Ping<K, V>>)
    ensures HoldsAll(pings, Window(pings))
  {
    if pings == [] {
    } else {
      var n := |pings| - 1;
      WindowHoldsNewest(pings[..n]);
      OfferHolds(pings[..n], Window(pings[..n]), pings[n]);
      assert pings == pings[..n] + [pings[n]];
    }
  }

  /** The newest ping of a key is unique, so the buffer is determined by the window alone. */
  lemma WindowIsNewest<K, V>(pings: seq<Ping<K, V>>, i: nat)
    requires IsNewest(pings, i)
    ensures pings[i].key in Window(pings).vals
    ensures Window(pings).vals[pings[i].key] == pings[i]
  {
    WindowHoldsNewest(pings);
    var k := pings[i].key;
    assert Holds(pings, k, Window(pings).vals[k]);
  }

  /** Who pinged, in arrival order. */
  function Keys<K, V>(pings: seq<Ping<K, V>>): seq<K> {
    seq(|pings|, i requires 0 <= i < |pings| => pings[i].key)
  }

  /** Iteration order is the order in which keys first pinged. */
  lemma {:induction false} WindowOrder<K, V>(pings: seq<Ping<K, V>>)
    ensures Window(pings).keys == Firsts(Keys(pings))
  {
    if pings == [] {
    } else {
      var n := |pings| - 1;
      WindowOrder(pings[..n]);
      assert Keys(pings) == Keys(pings[..n]) + [pings[n].key];
      FirstsStep(Keys(pings[..n]), pings[n].key);
    }
  }

  /** A window never holds more copies of a ping than arrived. */
  lemma {:induction false} WindowBag<K, V>(pings: seq<Ping<K, V>>)
    ensures multiset(Values(Window(pings))) <= multiset(pings)
  {
    if pings == [] {
    } else {
      var n := |pings| - 1;
      WindowBag(pings[..n]);
      assert pings == pings[..n] + [pings[n]];
      PutBag(Window(pings[..n]), pings[n].key, pings[n]);
    }
  }

  /** The ping is the newest of its key. */
  ghost predicate IsNewestPing<K, V>(pings: seq<Ping<K, V>>, p: Ping<K, V>) {
    exists i: nat :: IsNewest(pings, i) && pings[i] == p
  }

  lemma {:induction false} CountOfDistinct<T>(s: seq<T>, x: T)
    requires forall i, j :: 0 <= i < j < |s| ==> s[i] != s[j]
    ensures multiset(s)[x] == if x in s then 1 else 0
  {
    if s == [] {
    } else {
      var n := |s| - 1;
      CountOfDistinct(s[..n], x);
      assert s == s[..n] + [s[n]];
    }
  }

  /** What a window hands out: every newest ping once, and nothing else. */
  lemma WindowCounts<K, V>(pings: seq<Ping<K, V>>, p: Ping<K, V>)
    ensures multiset(Values(Window(pings)))[p] == if IsNewestPing(pings, p) then 1 else 0
  {
    var m, s := Window(pings), Values(Window(pings));
    WindowHoldsNewest(pings);
    WindowKeyed(pings);
    forall i, j | 0 <= i < j < |s| ensures s[i] != s[j] {
      assert s[i].key == m.keys[i] && s[j].key == m.keys[j];
    }
    CountOfDistinct(s, p);
    if p in s {
      var i :| 0 <= i < |s| && s[i] == p;
      assert Holds(pings, m.keys[i], p);
    }
    if IsNewestPing(pings, p) {
      var i: nat :| IsNewest(pings, i) && pings[i] == p;
      WindowIsNewest(pings, i);
      assert s[IndexOf(m, p.key)] == p;
    }
  }

  lemma WindowKeyed<K, V>(pings: seq<Ping<K, V>>)
    ensures forall k :: k in Window(pings).vals ==> Window(pings).vals[k].key == k
  {
    WindowHoldsNewest(pings);
    forall k | k in Window(pings).vals ensures Window(pings).vals[k].key == k {
      assert Holds(pings, k, Window(pings).vals[k]);
    }
  }

  // ---- the three fates of an arrival --------------------------------------------

  /** Another ping of the same key arrived before. */
  ghost predicate Repeats<K, V>(pings: seq<Ping<K, V>>, p: Ping<K, V>) {
    exists j :: 0 <= j < |pings| && pings[j].key == p.key
  }

  /** A strictly newer ping of the same key arrived before. */
  ghost predicate Late<K, V>(pings: seq<Ping<K, V>>, p: Ping<K, V>) {
    exists j :: 0 <= j < |pings| && pings[j].key == p.key && pings[j].at > p.at
  }

  ghost function Lates<K, V>(pings: seq<Ping<K, V>>): nat {
    if pings == [] then 0
    else Lates(pings[..|pings| - 1]) + if Late(pings[..|pings| - 1], pings[|pings| - 1]) then 1 else 0
  }

  ghost function Superseding<K, V>(pings: seq<Ping<K, V>>): nat {
    if pings == [] then 0
    else
      var before, last := pings[..|pings| - 1], pings[|pings| - 1];
      Superseding(before) + if Repeats(before, last) && !Late(before, last) then 1 else 0
  }

  /** The branch an arrival takes is decided by the history alone. */
  lemma Fate<K, V>(pings: seq<Ping<K, V>>, p: Ping<K, V>)
    ensures p.key in Window(pings).vals <==> Repeats(pings, p)
    ensures Repeats(pings, p) ==> (Window(pings).vals[p.key].at > p.at <==> Late(pings, p))
    ensures Late(pings, p) ==> Repeats(pings, p)
  {
    WindowHoldsNewest(pings);
    if p.key in Window(pings).vals {
      assert Holds(pings, p.key, Window(pings).vals[p.key]);
    }
  }

  /** Every arrival opens an entry, supersedes one, or is dropped as late. */
  lemma {:induction false} Conservation<K, V>(pings: seq<Ping<K, V>>)
    ensures |pings| == |Window(pings).keys| + Superseding(pings) + Lates(pings)
  {
    if pings == [] {
    } else {
      var before, last := pings[..|pings| - 1], pings[|pings| - 1];
      Conservation(before);
      Fate(before, last);
    }
  }
}
