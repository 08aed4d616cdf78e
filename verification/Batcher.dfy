/**
 The fleet location batcher: fleet -> truck -> newest position of the window.
 The nested mutable maps are proved to refine the flat history of accepted pings.
 */
module Batcher {
  import opened Options
  import opened JsMap
  import opened FirstOccurrence
  import opened Coalesce

  /** What a ping says besides the truck and the time. */
  datatype Fix = Fix(lat: real, lng: real, heading: Option<real>, speedKph: Option<real>)

  type TruckPing = Ping<string, Fix>

  /** A message as it comes off the wire: `position` is what the position schema made of it. */
  datatype Raw =
    | NotAnObject
    | Object(fleetId: Option<string>, position: Option<TruckPing>)

  datatype FleetPing = FleetPing(fleetId: string, ping: TruckPing)

  predicate IsPing(raw: Raw) {
    raw.Object? && raw.fleetId.Some? && raw.fleetId.value != "" && raw.position.Some?
  }

  function AsPing(raw: Raw): FleetPing
    requires IsPing(raw)
  {
    FleetPing(raw.fleetId.value, raw.position.value)
  }

  /** One tenant's share of the history, in arrival order. */
  function OfFleet(pings: seq<FleetPing>, fleetId: string): seq<TruckPing> {
    if pings == [] then []
    else
      var rest := OfFleet(pings[..|pings| - 1], fleetId);
      var last := pings[|pings| - 1];
      if last.fleetId == fleetId then rest + [last.ping] else rest
  }

  /** Whose pings, in arrival order. */
  function Fleets(pings: seq<FleetPing>): seq<string> {
    seq(|pings|, i requires 0 <= i < |pings| => pings[i].fleetId)
  }

  /** Fleets in order of first ping. */
  function FleetOrder(pings: seq<FleetPing>): seq<string> {
    Firsts(Fleets(pings))
  }

  /** The outer map; its iteration order is kept beside it. */
  type Buffer = map<string, JsMap<string, TruckPing>>

  /**
   The buffer holds, for exactly the fleets that pinged and in the order in which they
   first did, the coalesced window of that fleet's own pings and of nobody else's; so no
   inner map is empty.
   */
  ghost predicate Refines(pings: seq<FleetPing>, pending: Buffer, order: seq<string>) {
    && order == FleetOrder(pings)
    && forall f :: RefinesFor(OfFleet(pings, f), pending, f)
  }

  ghost predicate RefinesFor(mine: seq<TruckPing>, pending: Buffer, f: string) {
    && (f in pending <==> mine != [])
    && (f in pending ==> pending[f] == Window(mine))
  }

  lemma FleetOrderStep(pings: seq<FleetPing>, p: FleetPing)
    ensures FleetOrder(pings + [p]) == Listed(FleetOrder(pings), p.fleetId)
  {
    assert Fleets(pings + [p]) == Fleets(pings) + [p.fleetId];
    FirstsStep(Fleets(pings), p.fleetId);
  }

  lemma {:induction false} FleetsPing(pings: seq<FleetPing>, f: string)
    ensures f in Fleets(pings) <==> OfFleet(pings, f) != []
  {
    if pings == [] {
    } else {
      var n := |pings| - 1;
      FleetsPing(pings[..n], f);
      assert Fleets(pings) == Fleets(pings[..n]) + [pings[n].fleetId];
    }
  }

  lemma FleetOrderLists(pings: seq<FleetPing>)
    ensures forall f :: f in FleetOrder(pings) <==> OfFleet(pings, f) != []
    ensures forall i, j :: 0 <= i < j < |FleetOrder(pings)| ==> FleetOrder(pings)[i] != FleetOrder(pings)[j]
  {
    FirstsList(Fleets(pings));
    forall f ensures f in FleetOrder(pings) <==> OfFleet(pings, f) != [] {
      FleetsPing(pings, f);
    }
  }

  lemma OfFleetStep(pings: seq<FleetPing>, p: FleetPing, f: string)
    ensures OfFleet(pings + [p], f) == if p.fleetId == f then OfFleet(pings, f) + [p.ping] else OfFleet(pings, f)
  {
    assert (pings + [p])[..|pings + [p]| - 1] == pings;
  }

  function Inner(pending: Buffer, fleetId: string): JsMap<string, TruckPing> {
    if fleetId in pending then pending[fleetId] else Empty()
  }

  lemma WindowNonEmpty(pings: seq<TruckPing>)
    requires pings != []
    ensures Window(pings).keys != []
  {
    WindowHoldsNewest(pings);
    assert pings[0].key in Window(pings).vals;
  }

  function Listed(order: seq<string>, fleetId: string): seq<string> {
    if fleetId in order then order else order + [fleetId]
  }

  lemma AcceptRefines(pings: seq<FleetPing>, pending: Buffer, order: seq<string>, p: FleetPing)
    requires Refines(pings, pending, order)
    ensures p.fleetId in pending <==> p.fleetId in order
    ensures Inner(pending, p.fleetId) == Window(OfFleet(pings, p.fleetId))
    ensures Refines(pings + [p], pending[p.fleetId := Offer(Inner(pending, p.fleetId), p.ping)], Listed(order, p.fleetId))
    ensures var mine, k := Inner(pending, p.fleetId), p.ping.key;
            (k in mine.vals && mine.vals[k].at > p.ping.at) <==> Late(OfFleet(pings, p.fleetId), p.ping)
  {
    Fate(OfFleet(pings, p.fleetId), p.ping);
    FleetOrderLists(pings);
    FleetOrderStep(pings, p);
    assert RefinesFor(OfFleet(pings, p.fleetId), pending, p.fleetId);
    var after := pending[p.fleetId := Offer(Inner(pending, p.fleetId), p.ping)];
    forall f ensures RefinesFor(OfFleet(pings + [p], f), after, f) {
      assert RefinesFor(OfFleet(pings, f), pending, f);
      OfFleetStep(pings, p, f);
      WindowStep(OfFleet(pings, p.fleetId), p.ping);
    }
  }

  // ---- conservation over all fleets -----------------------------------------------------------

  /** What is buffered: a fleet and one of its trucks. */
  ghost function Entries(pending: Buffer): set<(string, string)> {
    set f, t | f in pending && t in pending[f].vals :: (f, t)
  }

  /** Who pinged. */
  ghost function Pingers(pings: seq<FleetPing>): set<(string, string)> {
    set i | 0 <= i < |pings| :: (pings[i].fleetId, pings[i].ping.key)
  }

  /** How many pings a strictly newer one of the same fleet and truck had preceded. */
  ghost function LatesIn(pings: seq<FleetPing>): nat {
    if pings == [] then 0
    else
      var before, last := pings[..|pings| - 1], pings[|pings| - 1];
      LatesIn(before) + if Late(OfFleet(before, last.fleetId), last.ping) then 1 else 0
  }

  /** How many took the place of an earlier one. */
  ghost function SupersedingIn(pings: seq<FleetPing>): nat {
    if pings == [] then 0
    else
      var before, last := pings[..|pings| - 1], pings[|pings| - 1];
      var mine := OfFleet(before, last.fleetId);
      SupersedingIn(before) + if Repeats(mine, last.ping) && !Late(mine, last.ping) then 1 else 0
  }

  lemma LatesStep(pings: seq<FleetPing>, p: FleetPing)
    ensures LatesIn(pings + [p]) == LatesIn(pings) + if Late(OfFleet(pings, p.fleetId), p.ping) then 1 else 0
  {
    assert (pings + [p])[..|pings|] == pings;
  }

  ghost predicate Pinged(mine: seq<TruckPing>, t: string) {
    exists j :: 0 <= j < |mine| && mine[j].key == t
  }

  lemma PingedStep(mine: seq<TruckPing>, p: TruckPing, t: string)
    ensures Pinged(mine + [p], t) <==> Pinged(mine, t) || p.key == t
  {
    var all := mine + [p];
    assert all[|mine|] == p;
    assert forall j :: 0 <= j < |mine| ==> all[j] == mine[j];
  }

  /** A ping of the flat history is a ping of its fleet's history, and the other way round. */
  lemma {:induction false} PingersByFleet(pings: seq<FleetPing>, f: string, t: string)
    ensures (f, t) in Pingers(pings) <==> Pinged(OfFleet(pings, f), t)
  {
    if pings == [] {
    } else {
      var before, last := pings[..|pings| - 1], pings[|pings| - 1];
      PingersByFleet(before, f, t);
      PingersStep(before, last);
      PingedStep(OfFleet(before, f), last.ping, t);
      assert pings == before + [last];
    }
  }

  lemma PingersStep(pings: seq<FleetPing>, p: FleetPing)
    ensures Pingers(pings + [p]) == Pingers(pings) + {(p.fleetId, p.ping.key)}
  {
    var all := pings + [p];
    assert all[|pings|] == p;
    assert forall i :: 0 <= i < |pings| ==> all[i] == pings[i];
  }

  /** A ping adds a pinger unless it repeats one. */
  lemma PingersCount(pings: seq<FleetPing>, p: FleetPing)
    ensures |Pingers(pings + [p])| == |Pingers(pings)| + if Repeats(OfFleet(pings, p.fleetId), p.ping) then 0 else 1
  {
    var mine, x := OfFleet(pings, p.fleetId), (p.fleetId, p.ping.key);
    PingersStep(pings, p);
    PingersByFleet(pings, p.fleetId, p.ping.key);
    assert Pinged(mine, p.ping.key) <==> Repeats(mine, p.ping);
    if x in Pingers(pings) {
      assert Pingers(pings) + {x} == Pingers(pings);
    }
  }

  lemma {:induction false} PingsAreConserved(pings: seq<FleetPing>)
    ensures |pings| == |Pingers(pings)| + SupersedingIn(pings) + LatesIn(pings)
  {
    if pings == [] {
      assert Pingers(pings) == {};
    } else {
      var before, last := pings[..|pings| - 1], pings[|pings| - 1];
      PingsAreConserved(before);
      PingersCount(before, last);
      assert pings == before + [last];
    }
  }

  lemma EntriesArePingers(pings: seq<FleetPing>, pending: Buffer, order: seq<string>)
    requires Refines(pings, pending, order)
    ensures Entries(pending) == Pingers(pings)
  {
    forall f, t ensures (f, t) in Entries(pending) <==> (f, t) in Pingers(pings) {
      var mine := OfFleet(pings, f);
      assert RefinesFor(mine, pending, f);
      PingersByFleet(pings, f, t);
      WindowHoldsNewest(mine);
      if f in pending && t in pending[f].vals {
        assert Holds(mine, t, Window(mine).vals[t]);
      }
    }
  }

  /** All fleets at once: every accepted ping is buffered, was replaced, or was dropped as late. */
  lemma BatchesAreConserved(pings: seq<FleetPing>, pending: Buffer, order: seq<string>)
    requires Refines(pings, pending, order)
    ensures |pings| == |Entries(pending)| + SupersedingIn(pings) + LatesIn(pings)
  {
    PingsAreConserved(pings);
    EntriesArePingers(pings, pending, order);
  }

  class LocationBatcher {
    var pending: Buffer
    var order: seq<string>
    var dropped: nat
    /** Pings accepted since the last drain, in arrival order. */
    ghost var window: seq<FleetPing>

    ghost predicate Valid()
      reads this
    {
      Refines(window, pending, order)
    }

    constructor ()
      ensures Valid() && window == [] && dropped == 0
    {
      pending := map[];
      order := [];
      dropped := 0;
      window := [];
    }

    method Accept(raw: Raw) returns (ok: bool)
      requires Valid()
      modifies this
      ensures Valid()
      ensures ok == IsPing(raw)
      ensures ok <==> raw.Object? && raw.fleetId.Some? && raw.fleetId.value != "" && raw.position.Some?
      ensures window == if ok then old(window) + [AsPing(raw)] else old(window)
      ensures ok ==> window[|old(window)|].fleetId == raw.fleetId.value && window[|old(window)|].ping == raw.position.value
      ensures dropped - old(dropped) == LatesIn(window) - LatesIn(old(window))
    {
      if raw.NotAnObject? || raw.fleetId.None? || raw.fleetId.value == "" || raw.position.None? {
        return false;
      }
      var p := FleetPing(raw.fleetId.value, raw.position.value);
      AcceptRefines(window, pending, order, p);
      LatesStep(window, p);
      window := window + [p];
      Store(p.fleetId, p.ping);
      return true;
    }

    /** The accept of a well-formed ping. */
    method Store(fleetId: string, position: TruckPing)
      requires fleetId in pending <==> fleetId in order
      modifies this`pending, this`order, this`dropped
      ensures pending == old(pending)[fleetId := Offer(Inner(old(pending), fleetId), position)]
      ensures order == Listed(old(order), fleetId)
      ensures var mine, k := Inner(old(pending), fleetId), position.key;
              dropped == old(dropped) + if k in mine.vals && mine.vals[k].at > position.at then 1 else 0
    {
      var byTruck: JsMap<string, TruckPing> := Empty();
      if fleetId in pending {
        byTruck := pending[fleetId];
      } else {
        pending := pending[fleetId := byTruck];
        order := order + [fleetId];
      }
      if position.key in byTruck.vals && byTruck.vals[position.key].at > position.at {
        dropped := dropped + 1;
        return;
      }
      pending := pending[fleetId := Put(byTruck, position.key, position)];
    }

    method TakeDroppedCount() returns (value: nat)
      requires Valid()
      modifies this`dropped
      ensures Valid() && value == old(dropped) && dropped == 0
    {
      value := dropped;
      dropped := 0;
    }

    /** Hands out each fleet's coalesced window, for the fleets that pinged and in the order they first did, and starts a new window. */
    method Drain() returns (out: JsMap<string, seq<TruckPing>>)
      requires Valid()
      modifies this`pending, this`order, this`window
      ensures Valid() && window == []
      ensures IsDrained(old(window), out)
    {
      OrderLists(window, pending, order);
      out := Collect(pending, order);
      CollectedIsDrained(window, pending, order, out);
      NothingRefinesNothing();
      pending := map[];
      order := [];
      window := [];
    }
  }

  lemma NothingRefinesNothing()
    ensures Refines([], map[], [])
  {
  }

  /** The order lists each buffered fleet once, and none of them with an empty map. */
  ghost predicate Lists(order: seq<string>, pending: Buffer) {
    && (forall i, j :: 0 <= i < j < |order| ==> order[i] != order[j])
    && (forall f :: f in order <==> f in pending)
    && (forall f :: f in pending ==> pending[f].keys != [])
  }

  lemma OrderLists(pings: seq<FleetPing>, pending: Buffer, order: seq<string>)
    requires Refines(pings, pending, order)
    ensures Lists(order, pending)
  {
    FleetOrderLists(pings);
    forall f ensures f in order <==> f in pending
             ensures f in pending ==> pending[f].keys != []
    {
      assert RefinesFor(OfFleet(pings, f), pending, f);
      if f in pending {
        WindowNonEmpty(OfFleet(pings, f));
      }
    }
  }

  ghost predicate Collected(pending: Buffer, order: seq<string>, out: JsMap<string, seq<TruckPing>>) {
    && out.keys == order
    && forall f :: f in out.vals ==> f in pending && out.vals[f] == Values(pending[f])
  }

  lemma CollectOne(pending: Buffer, order: seq<string>, n: nat, out: JsMap<string, seq<TruckPing>>)
    requires Lists(order, pending) && n < |order| && Collected(pending, order[..n], out)
    ensures order[n] in pending && |pending[order[n]].keys| > 0
    ensures Collected(pending, order[..n + 1], Put(out, order[n], Values(pending[order[n]])))
  {
    var f := order[n];
    assert f in order && f !in order[..n];
    assert f !in out.vals;
    assert order[..n + 1] == order[..n] + [f];
  }

  /** The drain loop. */
  method Collect(pending: Buffer, order: seq<string>) returns (out: JsMap<string, seq<TruckPing>>)
    requires Lists(order, pending)
    ensures Collected(pending, order, out)
  {
    out := Empty();
    assert Collected(pending, order[..0], out);
    for n := 0 to |order|
      invariant Collected(pending, order[..n], out)
    {
      CollectOne(pending, order, n, out);
      if |pending[order[n]].keys| > 0 {
        out := Put(out, order[n], Values(pending[order[n]]));
      }
    }
    assert order[..|order|] == order;
  }

  /** What a drained map says of the history it was collected from. */
  ghost predicate IsDrained(pings: seq<FleetPing>, out: JsMap<string, seq<TruckPing>>) {
    && out.keys == FleetOrder(pings)
    && (forall f :: f in out.vals <==> OfFleet(pings, f) != [])
    && (forall f :: f in out.vals ==> out.vals[f] == Values(Window(OfFleet(pings, f))))
  }

  lemma CollectedIsDrained(pings: seq<FleetPing>, pending: Buffer, order: seq<string>, out: JsMap<string, seq<TruckPing>>)
    requires Refines(pings, pending, order) && Collected(pending, order, out)
    ensures IsDrained(pings, out)
  {
    FleetOrderLists(pings);
    forall f ensures f in out.vals <==> OfFleet(pings, f) != []
             ensures f in out.vals ==> out.vals[f] == Values(Window(OfFleet(pings, f)))
    {
      assert RefinesFor(OfFleet(pings, f), pending, f);
      assert f in out.vals <==> f in out.keys;
    }
  }
}
