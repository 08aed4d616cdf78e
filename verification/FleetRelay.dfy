/**
 The fleet relay: each node drains its batcher once per window and emits to the
 sockets attached to itself. Shown against the cross-node emit it must not use.
 */
module FleetRelay {
  import opened Options
  import opened JsMap
  import opened Coalesce
  import opened Batcher

  datatype Frame =
    | LocationUpdate(positions: seq<TruckPing>, emittedAt: int)
    | BookingStatus(bookingId: string, status: string, at: int)
    | Ready(fleetId: string, serverTime: int)

  /** A console socket. Its one room is its fleet's. */
  datatype Socket = Socket(fleetId: string, inbox: seq<Frame>)

  type Sockets = map<nat, Socket>

  /** What an emit to a fleet's room does to the sockets of one node. */
  function Deliver(sockets: Sockets, fleetId: string, frames: seq<Frame>): Sockets {
    map s | s in sockets ::
      if sockets[s].fleetId == fleetId then sockets[s].(inbox := sockets[s].inbox + frames) else sockets[s]
  }

  /** A socket with a tenant joins that tenant's room and is greeted; one without is not there. */
  function Joined(sockets: Sockets, id: nat, fleetId: Option<string>, serverTime: int): Sockets {
    if fleetId.None? || fleetId.value == "" then sockets - {id}
    else sockets[id := Socket(fleetId.value, [Ready(fleetId.value, serverTime)])]
  }

  // ---- booking events -------------------------------------------------------------------

  datatype StatusChange = StatusChange(bookingId: string, status: string, at: int)

  /** A `fleet:events` message: its kind, its fleet id when a string, and what the schema made of it. */
  datatype FleetEvent = FleetEvent(kind: string, fleetId: Option<string>, parsed: Option<StatusChange>)

  function FrameOf(change: StatusChange): Frame {
    BookingStatus(change.bookingId, change.status, change.at)
  }

  /** What an event owes a console of a fleet. */
  function EventFrames(e: FleetEvent, fleetId: string): seq<Frame> {
    if e.kind == "booking_status" && e.fleetId == Some(fleetId) && fleetId != "" && e.parsed.Some?
    then [FrameOf(e.parsed.value)] else []
  }

  /** Every socket receives what the event owes its fleet. */
  function Noted(sockets: Sockets, e: FleetEvent): Sockets {
    map s | s in sockets :: sockets[s].(inbox := sockets[s].inbox + EventFrames(e, sockets[s].fleetId))
  }

  /** A socket gained one frame that says what the event says, if the event is for its fleet, and nothing otherwise. */
  ghost predicate Told(before: Socket, after: Socket, e: FleetEvent) {
    && after == before.(inbox := after.inbox)
    && if e.kind == "booking_status" && e.fleetId == Some(before.fleetId) && before.fleetId != "" && e.parsed.Some? then
         && |after.inbox| == |before.inbox| + 1 && before.inbox <= after.inbox
         && var f := after.inbox[|before.inbox|];
            f.BookingStatus? && f.bookingId == e.parsed.value.bookingId && f.status == e.parsed.value.status && f.at == e.parsed.value.at
       else after.inbox == before.inbox
  }

  lemma NotedTells(sockets: Sockets, e: FleetEvent, s: nat)
    requires s in sockets
    ensures Told(sockets[s], Noted(sockets, e)[s], e)
  {
    assert sockets[s].inbox + [] == sockets[s].inbox;
  }

  lemma NotedByNobody(sockets: Sockets, e: FleetEvent)
    requires e.kind != "booking_status" || e.fleetId.None? || e.fleetId.value == "" || e.parsed.None?
    ensures Noted(sockets, e) == sockets
  {
    assert forall s :: s in sockets ==> sockets[s].inbox + [] == sockets[s].inbox;
  }

  lemma NotedByOne(sockets: Sockets, e: FleetEvent)
    requires e.kind == "booking_status" && e.fleetId.Some? && e.fleetId.value != "" && e.parsed.Some?
    ensures Noted(sockets, e) == Deliver(sockets, e.fleetId.value, [FrameOf(e.parsed.value)])
  {
    forall s | s in sockets
      ensures Noted(sockets, e)[s] == Deliver(sockets, e.fleetId.value, [FrameOf(e.parsed.value)])[s]
    {
      assert sockets[s].inbox + [] == sockets[s].inbox;
    }
  }

  /** What `Deliver` means, socket by socket. */
  lemma DeliveredPointwise(before: Sockets, after: Sockets, fleetId: string, frame: Frame)
    requires after.Keys == before.Keys
    requires forall s :: s in before ==>
               && after[s].fleetId == before[s].fleetId
               && after[s].inbox == before[s].inbox + if before[s].fleetId == fleetId then [frame] else []
    ensures after == Deliver(before, fleetId, [frame])
  {
    forall s | s in before ensures after[s] == Deliver(before, fleetId, [frame])[s] {
      assert before[s].inbox + [] == before[s].inbox;
    }
  }

  // ---- one flush ------------------------------------------------------------------

  /** The frame a window owes the consoles of a fleet: none when none of its trucks pinged. */
  function FrameFor(window: seq<FleetPing>, fleetId: string, emittedAt: int): seq<Frame> {
    var mine := OfFleet(window, fleetId);
    if mine == [] then [] else [LocationUpdate(Values(Window(mine)), emittedAt)]
  }

  /** Every socket receives its own fleet's frame for the window and nothing else. */
  function Flushed(sockets: Sockets, window: seq<FleetPing>, emittedAt: int): Sockets {
    map s | s in sockets ::
      sockets[s].(inbox := sockets[s].inbox + FrameFor(window, sockets[s].fleetId, emittedAt))
  }

  type Batches = JsMap<string, seq<TruckPing>>

  /** The same, from the drained batches of some of the fleets. */
  function Batched(sockets: Sockets, byFleet: Batches, done: seq<string>, emittedAt: int): Sockets {
    map s | s in sockets ::
      if sockets[s].fleetId in byFleet.vals && sockets[s].fleetId in done
      then sockets[s].(inbox := sockets[s].inbox + [LocationUpdate(byFleet.vals[sockets[s].fleetId], emittedAt)])
      else sockets[s]
  }

  lemma BatchedNone(sockets: Sockets, byFleet: Batches, emittedAt: int)
    ensures Batched(sockets, byFleet, [], emittedAt) == sockets
  {
  }

  lemma BatchedOne(sockets: Sockets, byFleet: Batches, done: seq<string>, f: string, emittedAt: int)
    requires f in byFleet.vals && f !in done
    ensures Batched(sockets, byFleet, done + [f], emittedAt)
         == Deliver(Batched(sockets, byFleet, done, emittedAt), f, [LocationUpdate(byFleet.vals[f], emittedAt)])
  {
  }

  lemma DeliverToNobody(sockets: Sockets, fleetId: string, frames: seq<Frame>)
    requires forall s :: s in sockets ==> sockets[s].fleetId != fleetId
    ensures Deliver(sockets, fleetId, frames) == sockets
  {
  }

  lemma BatchesAreFrames(sockets: Sockets, window: seq<FleetPing>, byFleet: Batches, emittedAt: int)
    requires IsDrained(window, byFleet)
    ensures Batched(sockets, byFleet, byFleet.keys, emittedAt) == Flushed(sockets, window, emittedAt)
  {
    forall s | s in sockets
      ensures Batched(sockets, byFleet, byFleet.keys, emittedAt)[s] == Flushed(sockets, window, emittedAt)[s]
    {
      if sockets[s].fleetId !in byFleet.vals {
        assert sockets[s].inbox + [] == sockets[s].inbox;
      }
    }
  }

  /** A socket gained its fleet's frame of this flush, with each of its trucks' newest pings once, if any of them pinged. */
  ghost predicate Gained(before: Socket, after: Socket, window: seq<FleetPing>, emittedAt: int) {
    && after == before.(inbox := after.inbox)
    && var mine := OfFleet(window, before.fleetId);
       if mine == [] then after.inbox == before.inbox
       else
         && |after.inbox| == |before.inbox| + 1 && before.inbox <= after.inbox
         && var f := after.inbox[|before.inbox|];
            && f.LocationUpdate? && f.emittedAt == emittedAt
            && forall p :: multiset(f.positions)[p] == if IsNewestPing(mine, p) then 1 else 0
  }

  lemma FlushedGains(sockets: Sockets, window: seq<FleetPing>, emittedAt: int)
    ensures forall s :: s in sockets ==> Gained(sockets[s], Flushed(sockets, window, emittedAt)[s], window, emittedAt)
  {
    forall s | s in sockets ensures Gained(sockets[s], Flushed(sockets, window, emittedAt)[s], window, emittedAt) {
      var mine := OfFleet(window, sockets[s].fleetId);
      assert sockets[s].inbox + [] == sockets[s].inbox;
      forall p ensures multiset(Values(Window(mine)))[p] == if IsNewestPing(mine, p) then 1 else 0 {
        WindowCounts(mine, p);
      }
    }
  }

  class RealtimeRelay {
    const batcher: LocationBatcher
    var sockets: Sockets
    var destroyed: bool
    var malformed: nat

    /** Counts are taken and windows drained together, so the counter always speaks of the open window. */
    ghost predicate Valid()
      reads this, batcher
    {
      batcher.Valid() && batcher.dropped == LatesIn(batcher.window)
    }

    constructor ()
      ensures Valid() && fresh(batcher) && batcher.window == []
      ensures sockets == map[] && !destroyed && malformed == 0
    {
      batcher := new LocationBatcher();
      sockets := map[];
      destroyed := false;
      malformed := 0;
    }

    method OnLocationPing(raw: Raw)
      requires Valid()
      modifies this`malformed, batcher
      ensures Valid()
      ensures batcher.window == if IsPing(raw) then old(batcher.window) + [AsPing(raw)] else old(batcher.window)
      ensures malformed == old(malformed) + if IsPing(raw) then 0 else 1
    {
      var ok := batcher.Accept(raw);
      if !ok {
        malformed := malformed + 1;
      }
    }

    /** One copy to each local socket of the fleet, nothing to the others. */
    method RelayLocal(fleetId: string, frame: Frame)
      modifies this`sockets
      ensures sockets.Keys == old(sockets).Keys
      ensures forall s :: s in sockets ==>
                && sockets[s].fleetId == old(sockets)[s].fleetId
                && sockets[s].inbox == old(sockets)[s].inbox + if sockets[s].fleetId == fleetId then [frame] else []
    {
      sockets := Deliver(sockets, fleetId, [frame]);
    }

    method OnFleetEvent(event: FleetEvent)
      modifies this`sockets
      ensures sockets == Noted(old(sockets), event)
      ensures sockets.Keys == old(sockets).Keys
      ensures forall s :: s in sockets ==> Told(old(sockets)[s], sockets[s], event)
    {
      forall s | s in sockets ensures Told(sockets[s], Noted(sockets, event)[s], event) {
        NotedTells(sockets, event, s);
      }
      if event.kind != "booking_status" || event.fleetId.None? || event.fleetId.value == "" || event.parsed.None? {
        NotedByNobody(sockets, event);
        return;
      }
      NotedByOne(sockets, event);
      RelayLocal(event.fleetId.value, FrameOf(event.parsed.value));
      DeliveredPointwise(old(sockets), sockets, event.fleetId.value, FrameOf(event.parsed.value));
    }

    /** `fleetId` is what the redeemed ticket left on the socket. */
    method HandleConnection(id: nat, fleetId: Option<string>, serverTime: int)
      requires id !in sockets
      modifies this`sockets
      ensures sockets == Joined(old(sockets), id, fleetId, serverTime)
      ensures forall s :: s != id ==> (s in sockets <==> s in old(sockets)) && (s in sockets ==> sockets[s] == old(sockets)[s])
      ensures id in sockets <==> fleetId.Some? && fleetId.value != ""
      ensures id in sockets ==> sockets[id].fleetId == fleetId.value && sockets[id].inbox == [Ready(fleetId.value, serverTime)]
    {
      if fleetId.None? || fleetId.value == "" {
        return;
      }
      sockets := sockets[id := Socket(fleetId.value, [Ready(fleetId.value, serverTime)])];
    }

    method LocalRoomSize(fleetId: string) returns (n: nat)
      ensures n == |set s | s in sockets && sockets[s].fleetId == fleetId|
      ensures n == 0 <==> forall s :: s in sockets ==> sockets[s].fleetId != fleetId
    {
      var room := set s | s in sockets && sockets[s].fleetId == fleetId;
      assert forall s :: s in sockets && sockets[s].fleetId == fleetId ==> s in room;
      n := |room|;
    }

    /** `dropped` is the count that goes to the log. */
    method Flush(emittedAt: int) returns (dropped: nat)
      requires Valid()
      modifies this`sockets, batcher
      ensures Valid()
      ensures destroyed ==> sockets == old(sockets) && batcher.window == old(batcher.window)
      ensures !destroyed ==> batcher.window == []
      ensures !destroyed ==> sockets == Flushed(old(sockets), old(batcher.window), emittedAt)
      ensures !destroyed ==> forall s :: s in sockets ==> Gained(old(sockets)[s], sockets[s], old(batcher.window), emittedAt)
      ensures !destroyed ==>
                var window := old(batcher.window);
                dropped == LatesIn(window) && |window| == |Pingers(window)| + SupersedingIn(window) + dropped
    {
      dropped := 0;
      if destroyed { return; }
      ghost var window := batcher.window;
      PingsAreConserved(window);
      FlushedGains(sockets, window, emittedAt);
      dropped := batcher.TakeDroppedCount();
      var byFleet := batcher.Drain();
      if |byFleet.keys| > 0 {
        EmitBatches(byFleet, emittedAt);
      } else {
        BatchedNone(sockets, byFleet, emittedAt);
      }
      BatchesAreFrames(old(sockets), window, byFleet, emittedAt);
    }

    method EmitBatches(byFleet: Batches, emittedAt: int)
      modifies this`sockets
      ensures sockets == Batched(old(sockets), byFleet, byFleet.keys, emittedAt)
    {
      BatchedNone(sockets, byFleet, emittedAt);
      for n := 0 to |byFleet.keys|
        invariant sockets == Batched(old(sockets), byFleet, byFleet.keys[..n], emittedAt)
      {
        var fleetId := byFleet.keys[n];
        assert fleetId in byFleet.vals && fleetId !in byFleet.keys[..n];
        assert byFleet.keys[..n + 1] == byFleet.keys[..n] + [fleetId];
        BatchedOne(old(sockets), byFleet, byFleet.keys[..n], fleetId, emittedAt);
        var frame := LocationUpdate(byFleet.vals[fleetId], emittedAt);
        var size := LocalRoomSize(fleetId);
        if size == 0 {
          DeliverToNobody(sockets, fleetId, [frame]);
          continue;
        }
        ghost var before := sockets;
        RelayLocal(fleetId, frame);
        DeliveredPointwise(before, sockets, fleetId, frame);
      }
      assert byFleet.keys[..|byFleet.keys|] == byFleet.keys;
    }

    method OnModuleDestroy()
      modifies this`destroyed
      ensures destroyed
    {
      destroyed := true;
    }
  }

  // ---- local against cross-node ----------------------------------------------------

  /** `.local`: the handling node emits to its own sockets. */
  function HandleLocal(nodes: seq<Sockets>, order: seq<int>, fleetId: string, frame: Frame): seq<Sockets>
  {
    if order == [] then nodes
    else
      var before := HandleLocal(nodes, order[..|order| - 1], fleetId, frame);
      var n := order[|order| - 1];
      if 0 <= n < |before| then before[n := Deliver(before[n], fleetId, [frame])] else before
  }

  /** Without `.local` the adapter carries each handling node's emit to every node. */
  function HandleAcross(nodes: seq<Sockets>, order: seq<int>, fleetId: string, frame: Frame): seq<Sockets> {
    if order == [] then nodes
    else
      var before := HandleAcross(nodes, order[..|order| - 1], fleetId, frame);
      seq(|before|, i requires 0 <= i < |before| => Deliver(before[i], fleetId, [frame]))
  }

  function Copies(frame: Frame, n: nat): seq<Frame> {
    seq(n, i => frame)
  }

  ghost predicate Received(before: seq<Sockets>, after: seq<Sockets>, n: nat, fleetId: string, frames: seq<Frame>)
    requires n < |before|
  {
    && |after| == |before|
    && after[n] == Deliver(before[n], fleetId, frames)
  }

  lemma DeliverTwice(sockets: Sockets, fleetId: string, a: seq<Frame>, b: seq<Frame>)
    ensures Deliver(Deliver(sockets, fleetId, a), fleetId, b) == Deliver(sockets, fleetId, a + b)
  {
    forall s | s in sockets
      ensures Deliver(Deliver(sockets, fleetId, a), fleetId, b)[s] == Deliver(sockets, fleetId, a + b)[s]
    {
      assert sockets[s].inbox + a + b == sockets[s].inbox + (a + b);
    }
  }

  lemma DeliverNothing(sockets: Sockets, fleetId: string)
    ensures Deliver(sockets, fleetId, []) == sockets
  {
    assert forall s :: s in sockets ==> sockets[s].inbox + [] == sockets[s].inbox;
  }

  lemma {:induction false} LocalCopies(nodes: seq<Sockets>, order: seq<int>, fleetId: string, frame: Frame, n: nat)
    requires n < |nodes|
    ensures Received(nodes, HandleLocal(nodes, order, fleetId, frame), n, fleetId, Copies(frame, multiset(order)[n]))
  {
    if order == [] {
      DeliverNothing(nodes[n], fleetId);
      assert Copies(frame, 0) == [];
    } else {
      var before, last := order[..|order| - 1], order[|order| - 1];
      assert order == before + [last];
      var k := multiset(before)[n];
      assert multiset(order)[n] == k + if last == n then 1 else 0;
      LocalCopies(nodes, before, fleetId, frame, n);
      if last == n {
        DeliverTwice(nodes[n], fleetId, Copies(frame, k), [frame]);
        assert Copies(frame, k) + [frame] == Copies(frame, k + 1);
      }
    }
  }

  lemma {:induction false} AcrossCopies(nodes: seq<Sockets>, order: seq<int>, fleetId: string, frame: Frame, n: nat)
    requires n < |nodes|
    ensures Received(nodes, HandleAcross(nodes, order, fleetId, frame), n, fleetId, Copies(frame, |order|))
  {
    if order == [] {
      DeliverNothing(nodes[n], fleetId);
      assert Copies(frame, 0) == [];
    } else {
      var k := |order| - 1;
      AcrossCopies(nodes, order[..k], fleetId, frame, n);
      DeliverTwice(nodes[n], fleetId, Copies(frame, k), [frame]);
      assert Copies(frame, k) + [frame] == Copies(frame, k + 1);
    }
  }

  /** Every node handles the message once, in whatever order. */
  ghost predicate EveryNodeOnce(order: seq<int>, nodes: nat) {
    && |order| == nodes
    && (forall m :: m in order ==> 0 <= m < nodes)
    && (forall n: nat :: n < nodes ==> multiset(order)[n] == 1)
  }

  /**
   A fleet event handled once by each of N nodes, in any order and with any socket
   placement: with `.local` each socket of that fleet has one more frame and no other
   socket changes; without it each socket of that fleet has N more.
   */
  lemma OneCopyPerSocket(nodes: seq<Sockets>, order: seq<int>, fleetId: string, frame: Frame, n: nat)
    requires EveryNodeOnce(order, |nodes|) && n < |nodes|
    ensures Received(nodes, HandleLocal(nodes, order, fleetId, frame), n, fleetId, [frame])
    ensures Received(nodes, HandleAcross(nodes, order, fleetId, frame), n, fleetId, Copies(frame, |nodes|))
  {
    LocalCopies(nodes, order, fleetId, frame, n);
    AcrossCopies(nodes, order, fleetId, frame, n);
    assert Copies(frame, 1) == [frame];
  }
}
