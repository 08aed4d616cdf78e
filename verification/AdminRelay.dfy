/**
 The admin location relay of one node: newest-wins buffering between flushes, and
 a flush that routes by zone. Both of its paths are proved to emit one function of
 the socket's rooms, and that function to deliver every wanted position once.
 */
module AdminRelay {
  import opened Options
  import opened JsMap
  import opened Slices
  import opened FirstOccurrence
  import opened Coalesce
  import opened AdminNamespace

  const CHUNK_SIZE := 500

  /** The zone a position is routed by; an empty id counts as none. */
  function ZoneOf(p: Position): Option<string> {
    if p.body.zoneId.Some? && p.body.zoneId.value != "" then p.body.zoneId else None
  }

  // ---- what a flush owes a socket ------------------------------------------------------

  /** The zones among a socket's filter rooms. */
  function Zones(filter: seq<Room>): set<string> {
    set r | r in filter && r.Zone? :: r.zoneId
  }

  /** An operator without a zone filter wants every position, one with a filter those of its zones. */
  predicate Wants(filter: seq<Room>, p: Position) {
    Zones(filter) == {} || (ZoneOf(p).Some? && ZoneOf(p).value in Zones(filter))
  }

  function Wanted(filter: seq<Room>, ps: seq<Position>): seq<Position> {
    if ps == [] then []
    else
      var before := Wanted(filter, ps[..|ps| - 1]);
      if Wants(filter, ps[|ps| - 1]) then before + [ps[|ps| - 1]] else before
  }

  /**
   The same, read off the rooms and the position alone: a socket in no zone room is owed
   everything, one in zone rooms what names one of those zones by a non-empty id.
   */
  ghost predicate Admitted(s: Socket, p: Position) {
    || (forall z :: Zone(z) !in s.rooms)
    || (exists z :: Zone(z) in s.rooms && z != "" && p.body.zoneId == Some(z))
  }

  lemma WantsIffAdmitted(s: Socket, p: Position)
    requires InPlace(s)
    ensures Wants(s.filterRooms, p) <==> Admitted(s, p)
  {
    RoomsAndZones(s);
    if Zones(s.filterRooms) != {} {
      var z :| z in Zones(s.filterRooms);
      assert Zone(z) in s.rooms;
    }
    if p.body.zoneId.Some? {
      assert Zone(p.body.zoneId.value) in s.rooms <==> p.body.zoneId.value in Zones(s.filterRooms);
    }
  }

  lemma {:induction false} WantedCounts(filter: seq<Room>, ps: seq<Position>, p: Position)
    ensures multiset(Wanted(filter, ps))[p] == if Wants(filter, p) then multiset(ps)[p] else 0
  {
    if ps == [] {
    } else {
      var n := |ps| - 1;
      WantedCounts(filter, ps[..n], p);
      assert ps == ps[..n] + [ps[n]];
    }
  }

  /** The positions a sequence of frames carries. */
  function Carried(frames: seq<Frame>): seq<Position> {
    if frames == [] then []
    else
      var last := frames[|frames| - 1];
      Carried(frames[..|frames| - 1]) + if last.LocationUpdate? then last.positions else []
  }

  /** Location frames of this flush only, none empty and none over the ceiling. */
  ghost predicate IsBatch(frames: seq<Frame>, emittedAt: int) {
    forall f :: f in frames ==>
      f.LocationUpdate? && f.emittedAt == emittedAt && 1 <= |f.positions| <= 500
  }

  lemma {:induction false} CarriedConcat(a: seq<Frame>, b: seq<Frame>)
    ensures Carried(a + b) == Carried(a) + Carried(b)
  {
    if b == [] {
      assert a + b == a;
    } else {
      var n := |b| - 1;
      assert (a + b)[..|a + b| - 1] == a + b[..n];
      CarriedConcat(a, b[..n]);
    }
  }

  // ---- what a flush emits --------------------------------------------------------------

  function Chunks(ps: seq<Position>, emittedAt: int): seq<Frame>
    decreases |ps|
  {
    if ps == [] then []
    else if |ps| <= CHUNK_SIZE then [LocationUpdate(ps, emittedAt)]
    else [LocationUpdate(ps[..CHUNK_SIZE], emittedAt)] + Chunks(ps[CHUNK_SIZE..], emittedAt)
  }

  function OfZone(ps: seq<Position>, zoneId: string): seq<Position> {
    if ps == [] then []
    else
      var before := OfZone(ps[..|ps| - 1], zoneId);
      if ZoneOf(ps[|ps| - 1]) == Some(zoneId) then before + [ps[|ps| - 1]] else before
  }

  /** The zones of a batch's positions, where they have one. */
  function ZonesNamed(ps: seq<Position>): seq<string> {
    if ps == [] then []
    else
      var z := ZoneOf(ps[|ps| - 1]);
      ZonesNamed(ps[..|ps| - 1]) + if z.None? then [] else [z.value]
  }

  /** Zones in the order the batch first names them. */
  function ZoneOrder(ps: seq<Position>): seq<string> {
    Firsts(ZonesNamed(ps))
  }

  function ZoneFrames(rooms: set<Room>, ps: seq<Position>, zones: seq<string>, emittedAt: int): seq<Frame> {
    if zones == [] then []
    else
      var z := zones[|zones| - 1];
      ZoneFrames(rooms, ps, zones[..|zones| - 1], emittedAt)
      + if Zone(z) in rooms then Chunks(OfZone(ps, z), emittedAt) else []
  }

  function BroadcastFrames(rooms: set<Room>, ps: seq<Position>, emittedAt: int): seq<Frame> {
    if Ops in rooms && ZoneFiltered !in rooms then Chunks(ps, emittedAt) else []
  }

  /** Everything one flush emits to a socket in these rooms. */
  function FlushFrames(rooms: set<Room>, ps: seq<Position>, emittedAt: int): seq<Frame> {
    ZoneFrames(rooms, ps, ZoneOrder(ps), emittedAt) + BroadcastFrames(rooms, ps, emittedAt)
  }

  function Flushed(sockets: Sockets, ps: seq<Position>, emittedAt: int): Sockets {
    map s | s in sockets ::
      sockets[s].(inbox := sockets[s].inbox + FlushFrames(sockets[s].rooms, ps, emittedAt))
  }

  // ---- exactly once ---------------------------------------------------------------------

  lemma {:induction false} ChunksCarry(ps: seq<Position>, emittedAt: int)
    ensures Carried(Chunks(ps, emittedAt)) == ps
    ensures IsBatch(Chunks(ps, emittedAt), emittedAt)
    decreases |ps|
  {
    if |ps| <= CHUNK_SIZE {
    } else {
      var head := [LocationUpdate(ps[..CHUNK_SIZE], emittedAt)];
      ChunksCarry(ps[CHUNK_SIZE..], emittedAt);
      CarriedConcat(head, Chunks(ps[CHUNK_SIZE..], emittedAt));
      assert Carried(head) == ps[..CHUNK_SIZE];
    }
  }

  /** Positions whose zone is one of some zones, in batch order. */
  function InZones(ps: seq<Position>, zones: set<string>): seq<Position> {
    if ps == [] then []
    else
      var before := InZones(ps[..|ps| - 1], zones);
      var z := ZoneOf(ps[|ps| - 1]);
      if z.Some? && z.value in zones then before + [ps[|ps| - 1]] else before
  }

  lemma {:induction false} InZonesSplit(ps: seq<Position>, zones: set<string>, z: string)
    requires z !in zones
    ensures multiset(InZones(ps, zones + {z})) == multiset(InZones(ps, zones)) + multiset(OfZone(ps, z))
  {
    if ps == [] {
    } else {
      InZonesSplit(ps[..|ps| - 1], zones, z);
    }
  }

  /** The position names one of these zones by a non-empty id. */
  predicate NamesOneOf(p: Position, zones: set<string>) {
    p.body.zoneId.Some? && p.body.zoneId.value != "" && p.body.zoneId.value in zones
  }

  lemma {:induction false} InZonesCounts(ps: seq<Position>, zones: set<string>, p: Position)
    ensures multiset(InZones(ps, zones))[p] == if NamesOneOf(p, zones) then multiset(ps)[p] else 0
  {
    if ps == [] {
    } else {
      var n := |ps| - 1;
      InZonesCounts(ps[..n], zones, p);
      assert ps == ps[..n] + [ps[n]];
    }
  }

  lemma {:induction false} InNoZones(ps: seq<Position>)
    ensures InZones(ps, {}) == []
  {
    if ps == [] {
    } else {
      InNoZones(ps[..|ps| - 1]);
    }
  }

  ghost function Joined(rooms: set<Room>, zones: seq<string>): set<string> {
    set z | z in zones && Zone(z) in rooms
  }

  lemma {:induction false} ZoneFramesAreBatches(rooms: set<Room>, ps: seq<Position>, zones: seq<string>, emittedAt: int)
    ensures IsBatch(ZoneFrames(rooms, ps, zones, emittedAt), emittedAt)
  {
    if zones == [] {
    } else {
      ZoneFramesAreBatches(rooms, ps, zones[..|zones| - 1], emittedAt);
      ChunksCarry(OfZone(ps, zones[|zones| - 1]), emittedAt);
    }
  }

  lemma JoinedOne(rooms: set<Room>, zones: seq<string>, z: string)
    requires z !in zones
    ensures z !in Joined(rooms, zones)
    ensures Joined(rooms, zones + [z]) == Joined(rooms, zones) + if Zone(z) in rooms then {z} else {}
  {
  }

  /** The zone frames carry each position that names one of the joined zones by a non-empty id as often as it is listed, and no other. */
  lemma ZoneFramesCarry(rooms: set<Room>, ps: seq<Position>, zones: seq<string>, emittedAt: int, p: Position)
    requires forall i, j :: 0 <= i < j < |zones| ==> zones[i] != zones[j]
    ensures multiset(Carried(ZoneFrames(rooms, ps, zones, emittedAt)))[p] ==
            if exists z :: z in zones && Zone(z) in rooms && z != "" && p.body.zoneId == Some(z) then multiset(ps)[p] else 0
  {
    ZoneFramesCarryJoined(rooms, ps, zones, emittedAt);
    InZonesCounts(ps, Joined(rooms, zones), p);
    if p.body.zoneId.Some? {
      var z := p.body.zoneId.value;
      assert z in Joined(rooms, zones) <==> z in zones && Zone(z) in rooms;
    }
  }

  lemma {:induction false} ZoneFramesCarryJoined(rooms: set<Room>, ps: seq<Position>, zones: seq<string>, emittedAt: int)
    requires forall i, j :: 0 <= i < j < |zones| ==> zones[i] != zones[j]
    ensures multiset(Carried(ZoneFrames(rooms, ps, zones, emittedAt))) == multiset(InZones(ps, Joined(rooms, zones)))
  {
    if zones == [] {
      InNoZones(ps);
      assert Joined(rooms, zones) == {};
    } else {
      var n := |zones| - 1;
      var z, before := zones[n], zones[..n];
      var frames, more := ZoneFrames(rooms, ps, before, emittedAt), Chunks(OfZone(ps, z), emittedAt);
      ZoneFramesCarryJoined(rooms, ps, before, emittedAt);
      assert zones == before + [z];
      JoinedOne(rooms, before, z);
      if Zone(z) in rooms {
        ChunksCarry(OfZone(ps, z), emittedAt);
        CarriedConcat(frames, more);
        InZonesSplit(ps, Joined(rooms, before), z);
      } else {
        assert frames + [] == frames;
        assert Joined(rooms, before) + {} == Joined(rooms, before);
      }
    }
  }

  lemma {:induction false} ZonesNamedAll(ps: seq<Position>)
    ensures forall p :: p in ps && ZoneOf(p).Some? ==> ZoneOf(p).value in ZonesNamed(ps)
  {
    if ps == [] {
    } else {
      ZonesNamedAll(ps[..|ps| - 1]);
      assert ps == ps[..|ps| - 1] + [ps[|ps| - 1]];
    }
  }

  lemma ZoneOrderDistinct(ps: seq<Position>)
    ensures forall i, j :: 0 <= i < j < |ZoneOrder(ps)| ==> ZoneOrder(ps)[i] != ZoneOrder(ps)[j]
    ensures forall p :: p in ps && ZoneOf(p).Some? ==> ZoneOf(p).value in ZoneOrder(ps)
  {
    ZonesNamedAll(ps);
    FirstsList(ZonesNamed(ps));
  }

  /** Zones the batch does not name contribute nothing. */
  lemma {:induction false} InZonesRelevant(ps: seq<Position>, a: set<string>, b: set<string>)
    requires forall p :: p in ps && ZoneOf(p).Some? ==> (ZoneOf(p).value in a <==> ZoneOf(p).value in b)
    ensures InZones(ps, a) == InZones(ps, b)
  {
    if ps == [] {
    } else {
      var n := |ps| - 1;
      assert ps == ps[..n] + [ps[n]];
      InZonesRelevant(ps[..n], a, b);
    }
  }

  lemma {:induction false} WantedIsInZones(filter: seq<Room>, ps: seq<Position>)
    ensures Zones(filter) != {} ==> Wanted(filter, ps) == InZones(ps, Zones(filter))
    ensures Zones(filter) == {} ==> Wanted(filter, ps) == ps
  {
    if ps == [] {
    } else {
      var n := |ps| - 1;
      assert ps == ps[..n] + [ps[n]];
      WantedIsInZones(filter, ps[..n]);
    }
  }

  lemma RoomsAndZones(s: Socket)
    requires InPlace(s)
    ensures forall z :: Zone(z) in s.rooms <==> z in Zones(s.filterRooms)
    ensures ZoneFiltered in s.rooms <==> Zones(s.filterRooms) != {}
    ensures Ops in s.rooms
  {
    if HasZone(s.filterRooms) {
      var r :| r in s.filterRooms && r.Zone?;
      assert r.zoneId in Zones(s.filterRooms);
    }
    if Zones(s.filterRooms) != {} {
      var z :| z in Zones(s.filterRooms);
      assert Zone(z) in s.filterRooms;
    }
  }

  /**
   Exactly-once delivery: whatever the mix of filters on the node, one flush gives a
   socket in its proper rooms each position it is owed exactly as often as it was buffered,
   and no other, in non-empty frames of at most 500.
   */
  lemma FlushIsExact(s: Socket, ps: seq<Position>, emittedAt: int)
    requires InPlace(s)
    ensures forall p :: multiset(Carried(FlushFrames(s.rooms, ps, emittedAt)))[p] == if Admitted(s, p) then multiset(ps)[p] else 0
    ensures IsBatch(FlushFrames(s.rooms, ps, emittedAt), emittedAt)
  {
    FlushCarriesWanted(s, ps, emittedAt);
    forall p ensures multiset(Carried(FlushFrames(s.rooms, ps, emittedAt)))[p] == if Admitted(s, p) then multiset(ps)[p] else 0 {
      WantedCounts(s.filterRooms, ps, p);
      WantsIffAdmitted(s, p);
    }
  }

  lemma FlushCarriesWanted(s: Socket, ps: seq<Position>, emittedAt: int)
    requires InPlace(s)
    ensures multiset(Carried(FlushFrames(s.rooms, ps, emittedAt))) == multiset(Wanted(s.filterRooms, ps))
    ensures IsBatch(FlushFrames(s.rooms, ps, emittedAt), emittedAt)
  {
    var order := ZoneOrder(ps);
    var zoned, broadcast := ZoneFrames(s.rooms, ps, order, emittedAt), BroadcastFrames(s.rooms, ps, emittedAt);
    RoomsAndZones(s);
    ZoneOrderDistinct(ps);
    ZoneFramesCarryJoined(s.rooms, ps, order, emittedAt);
    ZoneFramesAreBatches(s.rooms, ps, order, emittedAt);
    CarriedConcat(zoned, broadcast);
    ChunksCarry(ps, emittedAt);
    WantedIsInZones(s.filterRooms, ps);
    InZonesRelevant(ps, Joined(s.rooms, order), Zones(s.filterRooms));
    if Zones(s.filterRooms) == {} {
      InNoZones(ps);
      assert Joined(s.rooms, order) == {};
    }
  }

  // ---- the two paths of the code ---------------------------------------------------------

  lemma {:induction false} NoZoneFrames(rooms: set<Room>, ps: seq<Position>, zones: seq<string>, emittedAt: int)
    requires forall z :: Zone(z) !in rooms
    ensures ZoneFrames(rooms, ps, zones, emittedAt) == []
  {
    if zones == [] {
    } else {
      NoZoneFrames(rooms, ps, zones[..|zones| - 1], emittedAt);
    }
  }

  /** With nobody filtering, one broadcast to `admin:ops` is what the routed flush would emit. */
  lemma FastPathRefines(sockets: Sockets, ps: seq<Position>, emittedAt: int)
    requires AllInPlace(sockets)
    requires forall s :: s in sockets ==> ZoneFiltered !in sockets[s].rooms
    ensures EmitAll(sockets, {Ops}, {}, Chunks(ps, emittedAt)) == Flushed(sockets, ps, emittedAt)
  {
    forall s | s in sockets
      ensures EmitAll(sockets, {Ops}, {}, Chunks(ps, emittedAt))[s] == Flushed(sockets, ps, emittedAt)[s]
    {
      RoomsAndZones(sockets[s]);
      NoZoneFrames(sockets[s].rooms, ps, ZoneOrder(ps), emittedAt);
      assert [] + Chunks(ps, emittedAt) == Chunks(ps, emittedAt);
      assert Ops in sockets[s].rooms * {Ops};
    }
  }

  /** The sockets after the groups of some zones have gone to their zone rooms. */
  function Routed(sockets: Sockets, ps: seq<Position>, zones: seq<string>, emittedAt: int): Sockets {
    map s | s in sockets ::
      sockets[s].(inbox := sockets[s].inbox + ZoneFrames(sockets[s].rooms, ps, zones, emittedAt))
  }

  lemma RoutedNowhere(sockets: Sockets, ps: seq<Position>, emittedAt: int)
    ensures Routed(sockets, ps, [], emittedAt) == sockets
  {
    forall s | s in sockets ensures Routed(sockets, ps, [], emittedAt)[s] == sockets[s] {
      assert sockets[s].inbox + [] == sockets[s].inbox;
    }
  }

  lemma RouteOne(sockets: Sockets, ps: seq<Position>, zones: seq<string>, z: string, emittedAt: int)
    ensures EmitAll(Routed(sockets, ps, zones, emittedAt), {Zone(z)}, {}, Chunks(OfZone(ps, z), emittedAt))
         == Routed(sockets, ps, zones + [z], emittedAt)
  {
    var a := EmitAll(Routed(sockets, ps, zones, emittedAt), {Zone(z)}, {}, Chunks(OfZone(ps, z), emittedAt));
    assert (zones + [z])[..|zones + [z]| - 1] == zones;
    forall s | s in sockets ensures a[s] == Routed(sockets, ps, zones + [z], emittedAt)[s] {
      var before := ZoneFrames(sockets[s].rooms, ps, zones, emittedAt);
      var more := Chunks(OfZone(ps, z), emittedAt);
      if Zone(z) in sockets[s].rooms {
        assert Zone(z) in sockets[s].rooms * {Zone(z)};
        assert sockets[s].inbox + before + more == sockets[s].inbox + (before + more);
      } else {
        assert sockets[s].rooms * {Zone(z)} == {};
        assert before + [] == before;
      }
    }
  }

  lemma BroadcastTo(s: Socket, ps: seq<Position>, before: seq<Frame>, emittedAt: int)
    ensures var routed := s.(inbox := s.inbox + before);
            s.(inbox := s.inbox + (before + BroadcastFrames(s.rooms, ps, emittedAt))) ==
            (if Addressed(routed, {Ops}, {ZoneFiltered})
             then routed.(inbox := routed.inbox + Chunks(ps, emittedAt)) else routed)
  {
    AddressedOne(s.(inbox := s.inbox + before), Ops, {ZoneFiltered});
    assert (s.inbox + before) + Chunks(ps, emittedAt) == s.inbox + (before + Chunks(ps, emittedAt));
    assert before + [] == before;
  }

  lemma RouteThenBroadcast(sockets: Sockets, ps: seq<Position>, emittedAt: int)
    ensures EmitAll(Routed(sockets, ps, ZoneOrder(ps), emittedAt), {Ops}, {ZoneFiltered}, Chunks(ps, emittedAt))
         == Flushed(sockets, ps, emittedAt)
  {
    forall s | s in sockets
      ensures EmitAll(Routed(sockets, ps, ZoneOrder(ps), emittedAt), {Ops}, {ZoneFiltered}, Chunks(ps, emittedAt))[s]
           == Flushed(sockets, ps, emittedAt)[s]
    {
      BroadcastTo(sockets[s], ps, ZoneFrames(sockets[s].rooms, ps, ZoneOrder(ps), emittedAt), emittedAt);
    }
  }

  // ---- what a flush gives, socket by socket -----------------------------------------------------

  /** The socket gained frames of this flush that carry each of these positions it is owed as often as it is listed. */
  ghost predicate Gained(before: Socket, after: Socket, ps: seq<Position>, emittedAt: int) {
    && before.inbox <= after.inbox && after == before.(inbox := after.inbox)
    && IsBatch(after.inbox[|before.inbox|..], emittedAt)
    && forall p :: multiset(Carried(after.inbox[|before.inbox|..]))[p] == if Admitted(before, p) then multiset(ps)[p] else 0
  }

  /** The same for a window: each driver's newest ping once. */
  ghost predicate GainedNewest(before: Socket, after: Socket, window: seq<Position>, emittedAt: int) {
    && before.inbox <= after.inbox && after == before.(inbox := after.inbox)
    && IsBatch(after.inbox[|before.inbox|..], emittedAt)
    && forall p :: multiset(Carried(after.inbox[|before.inbox|..]))[p] == if Admitted(before, p) && IsNewestPing(window, p) then 1 else 0
  }

  lemma FlushedGains(sockets: Sockets, ps: seq<Position>, emittedAt: int, s: nat)
    requires AllInPlace(sockets) && s in sockets
    ensures Gained(sockets[s], Flushed(sockets, ps, emittedAt)[s], ps, emittedAt)
  {
    var frames := FlushFrames(sockets[s].rooms, ps, emittedAt);
    FlushIsExact(sockets[s], ps, emittedAt);
    assert (sockets[s].inbox + frames)[|sockets[s].inbox|..] == frames;
  }

  lemma AllGain(sockets: Sockets, ps: seq<Position>, emittedAt: int)
    requires AllInPlace(sockets)
    ensures forall s :: s in sockets ==> Gained(sockets[s], Flushed(sockets, ps, emittedAt)[s], ps, emittedAt)
  {
    forall s | s in sockets ensures Gained(sockets[s], Flushed(sockets, ps, emittedAt)[s], ps, emittedAt) {
      FlushedGains(sockets, ps, emittedAt, s);
    }
  }

  lemma WindowGains(before: Socket, after: Socket, window: seq<Position>, emittedAt: int)
    requires Gained(before, after, Values(Window(window)), emittedAt)
    ensures GainedNewest(before, after, window, emittedAt)
  {
    forall p ensures multiset(Carried(after.inbox[|before.inbox|..]))[p] == if Admitted(before, p) && IsNewestPing(window, p) then 1 else 0 {
      WindowCounts(window, p);
    }
  }

  ghost predicate Grouped(ps: seq<Position>, byZone: JsMap<string, seq<Position>>) {
    && byZone.keys == ZoneOrder(ps)
    && forall z :: z in byZone.vals ==> byZone.vals[z] == OfZone(ps, z)
  }

  lemma {:induction false} OfZoneEmpty(ps: seq<Position>, z: string)
    requires z !in ZonesNamed(ps)
    ensures OfZone(ps, z) == []
  {
    if ps == [] {
    } else {
      OfZoneEmpty(ps[..|ps| - 1], z);
    }
  }

  function GroupOne(byZone: JsMap<string, seq<Position>>, p: Position): JsMap<string, seq<Position>> {
    var z := ZoneOf(p);
    if z.None? then byZone
    else if z.value in byZone.vals then Put(byZone, z.value, byZone.vals[z.value] + [p])
    else Put(byZone, z.value, [p])
  }

  /** What one more position adds to the zones and to a zone's group. */
  lemma OneMore(ps: seq<Position>, p: Position, zone: string)
    ensures ZonesNamed(ps + [p]) == if ZoneOf(p).None? then ZonesNamed(ps) else ZonesNamed(ps) + [ZoneOf(p).value]
    ensures OfZone(ps + [p], zone) == if ZoneOf(p) == Some(zone) then OfZone(ps, zone) + [p] else OfZone(ps, zone)
  {
    assert (ps + [p])[..|ps + [p]| - 1] == ps;
    assert ZonesNamed(ps) + [] == ZonesNamed(ps);
  }

  lemma GroupOrder(ps: seq<Position>, byZone: JsMap<string, seq<Position>>, p: Position)
    requires byZone.keys == ZoneOrder(ps)
    ensures GroupOne(byZone, p).keys == ZoneOrder(ps + [p])
  {
    OneMore(ps, p, "");
    if ZoneOf(p).Some? {
      FirstsStep(ZonesNamed(ps), ZoneOf(p).value);
      assert ZoneOf(p).value in byZone.vals <==> ZoneOf(p).value in byZone.keys;
    }
  }

  lemma GroupStep(ps: seq<Position>, byZone: JsMap<string, seq<Position>>, p: Position)
    requires Grouped(ps, byZone)
    ensures Grouped(ps + [p], GroupOne(byZone, p))
  {
    GroupOrder(ps, byZone, p);
    FirstsList(ZonesNamed(ps));
    forall z | z in GroupOne(byZone, p).vals ensures GroupOne(byZone, p).vals[z] == OfZone(ps + [p], z) {
      OneMore(ps, p, z);
      if z !in byZone.vals {
        assert z !in byZone.keys;
        OfZoneEmpty(ps, z);
        assert [] + [p] == [p];
      }
    }
  }

  /** The groups: for each zone some position names by a non-empty id, those positions as often as they are listed. */
  lemma GroupsAre(ps: seq<Position>, byZone: JsMap<string, seq<Position>>, z: string)
    requires Grouped(ps, byZone)
    ensures z in byZone.vals <==> z != "" && exists p :: p in ps && p.body.zoneId == Some(z)
    ensures z in byZone.vals ==>
              forall p :: multiset(byZone.vals[z])[p] == if z != "" && p.body.zoneId == Some(z) then multiset(ps)[p] else 0
  {
    FirstsList(ZonesNamed(ps));
    ZonesNamedIff(ps, z);
    assert z in byZone.vals <==> z in byZone.keys;
    forall p ensures multiset(OfZone(ps, z))[p] == if z != "" && p.body.zoneId == Some(z) then multiset(ps)[p] else 0 {
      OfZoneCounts(ps, z, p);
    }
  }

  lemma {:induction false} ZonesNamedIff(ps: seq<Position>, z: string)
    ensures z in ZonesNamed(ps) <==> z != "" && exists p :: p in ps && p.body.zoneId == Some(z)
  {
    if ps == [] {
    } else {
      var n := |ps| - 1;
      ZonesNamedIff(ps[..n], z);
      assert ps == ps[..n] + [ps[n]];
      if z in ZonesNamed(ps) && z !in ZonesNamed(ps[..n]) {
        assert ps[n] in ps && ps[n].body.zoneId == Some(z);
      }
    }
  }

  lemma {:induction false} OfZoneCounts(ps: seq<Position>, z: string, p: Position)
    ensures multiset(OfZone(ps, z))[p] == if z != "" && p.body.zoneId == Some(z) then multiset(ps)[p] else 0
  {
    if ps == [] {
    } else {
      var n := |ps| - 1;
      OfZoneCounts(ps[..n], z, p);
      assert ps == ps[..n] + [ps[n]];
    }
  }

  method GroupByZone(ps: seq<Position>) returns (byZone: JsMap<string, seq<Position>>)
    ensures Grouped(ps, byZone)
    ensures forall z :: z in byZone.vals <==> z != "" && exists p :: p in ps && p.body.zoneId == Some(z)
    ensures forall z, p :: z in byZone.vals ==>
              multiset(byZone.vals[z])[p] == if p.body.zoneId == Some(z) then multiset(ps)[p] else 0
  {
    byZone := Empty();
    for n := 0 to |ps|
      invariant Grouped(ps[..n], byZone)
    {
      PrefixGrows(ps, n);
      GroupStep(ps[..n], byZone, ps[n]);
      var p := ps[n];
      if p.body.zoneId.None? || p.body.zoneId.value == "" { continue; }
      var zoneId := p.body.zoneId.value;
      if zoneId in byZone.vals {
        byZone := Put(byZone, zoneId, byZone.vals[zoneId] + [p]);
      } else {
        byZone := Put(byZone, zoneId, [p]);
      }
    }
    assert ps[..|ps|] == ps;
    forall z ensures z in byZone.vals <==> z != "" && exists p :: p in ps && p.body.zoneId == Some(z)
             ensures z in byZone.vals ==>
                       forall p :: multiset(byZone.vals[z])[p] == if z != "" && p.body.zoneId == Some(z) then multiset(ps)[p] else 0
    {
      GroupsAre(ps, byZone, z);
    }
  }

  /** Which of the gateway's emits a chunk loop uses. */
  datatype Target = ToOps | ToUnfiltered | ToZone(zoneId: string)

  function To(t: Target): set<Room> {
    if t.ToZone? then {Zone(t.zoneId)} else {Ops}
  }

  function Except(t: Target): set<Room> {
    if t.ToUnfiltered? then {ZoneFiltered} else {}
  }

  predicate Reaches(t: Target, s: Socket) {
    match t
    case ToOps => Ops in s.rooms
    case ToUnfiltered => Ops in s.rooms && ZoneFiltered !in s.rooms
    case ToZone(z) => Zone(z) in s.rooms
  }

  lemma TargetReaches(t: Target, s: Socket)
    ensures Addressed(s, To(t), Except(t)) <==> Reaches(t, s)
  {
    AddressedOne(s, if t.ToZone? then Zone(t.zoneId) else Ops, Except(t));
  }

  class AdminLocationRelay {
    const gateway: AdminGateway
    var pending: JsMap<string, Position>
    var destroyed: bool
    var malformed: nat
    /** Well-formed pings since the buffer was last emptied. */
    ghost var window: seq<Position>

    ghost predicate Valid()
      reads this, gateway
    {
      gateway.Valid() && pending == Window(window)
    }

    constructor (gateway: AdminGateway)
      requires gateway.Valid()
      ensures Valid() && this.gateway == gateway && window == [] && !destroyed && malformed == 0
    {
      this.gateway := gateway;
      pending := Empty();
      destroyed := false;
      malformed := 0;
      window := [];
    }

    /** `event` is what the ping schema made of the payload. */
    method OnDriverPing(event: Option<Position>)
      requires Valid()
      modifies this
      ensures Valid() && destroyed == old(destroyed)
      ensures window == if event.Some? then old(window) + [event.value] else old(window)
      ensures malformed == old(malformed) + if event.Some? then 0 else 1
    {
      if event.None? {
        malformed := malformed + 1;
        return;
      }
      var next := event.value;
      WindowStep(window, next);
      window := window + [next];
      if next.key in pending.vals && pending.vals[next.key].at > next.at {
        return;
      }
      pending := Put(pending, next.key, next);
    }

    method EmitOne(target: Target, frame: Frame)
      requires gateway.Valid()
      modifies gateway
      ensures gateway.Valid()
      ensures gateway.sockets == EmitAll(old(gateway.sockets), To(target), Except(target), [frame])
    {
      ghost var before := gateway.sockets;
      forall s | s in before ensures Addressed(before[s], To(target), Except(target)) <==> Reaches(target, before[s]) {
        TargetReaches(target, before[s]);
      }
      match target {
        case ToOps => gateway.EmitOps(frame);
        case ToUnfiltered => gateway.EmitOpsUnfiltered(frame);
        case ToZone(z) => gateway.EmitZone(z, frame);
      }
      EmittedPointwise(before, gateway.sockets, To(target), Except(target), frame);
    }

    method EmitChunked(target: Target, group: seq<Position>, emittedAt: int)
      requires gateway.Valid()
      modifies gateway
      ensures gateway.Valid()
      ensures gateway.sockets == EmitAll(old(gateway.sockets), To(target), Except(target), Chunks(group, emittedAt))
    {
      ghost var done: seq<Frame> := [];
      EmitNothing(gateway.sockets, To(target), Except(target));
      var offset := 0;
      while offset < |group|
        invariant 0 <= offset && gateway.Valid()
        invariant done + Chunks(if offset < |group| then group[offset..] else [], emittedAt) == Chunks(group, emittedAt)
        invariant gateway.sockets == EmitAll(old(gateway.sockets), To(target), Except(target), done)
        decreases |group| - offset
      {
        var end := if offset + CHUNK_SIZE < |group| then offset + CHUNK_SIZE else |group|;
        var frame := LocationUpdate(group[offset..end], emittedAt);
        EmitTwice(old(gateway.sockets), To(target), Except(target), done, [frame]);
        ChunkAt(group, offset, emittedAt);
        EmitOne(target, frame);
        done := done + [frame];
        offset := offset + CHUNK_SIZE;
      }
      assert done + [] == done;
    }

    /** The zone groups to their zone rooms. */
    method EmitGroups(ghost positions: seq<Position>, byZone: JsMap<string, seq<Position>>, emittedAt: int)
      requires gateway.Valid() && Grouped(positions, byZone)
      modifies gateway
      ensures gateway.Valid()
      ensures gateway.sockets == Routed(old(gateway.sockets), positions, ZoneOrder(positions), emittedAt)
    {
      RoutedNowhere(gateway.sockets, positions, emittedAt);
      for i := 0 to |byZone.keys|
        invariant gateway.Valid()
        invariant gateway.sockets == Routed(old(gateway.sockets), positions, byZone.keys[..i], emittedAt)
      {
        var zoneId := byZone.keys[i];
        assert zoneId in byZone.vals;
        RouteOne(old(gateway.sockets), positions, byZone.keys[..i], zoneId, emittedAt);
        PrefixGrows(byZone.keys, i);
        EmitChunked(ToZone(zoneId), byZone.vals[zoneId], emittedAt);
      }
      assert byZone.keys[..|byZone.keys|] == byZone.keys;
    }

    /** Zone groups to their zone rooms, then the whole batch to the sockets without a zone filter. */
    method EmitRouted(positions: seq<Position>, emittedAt: int)
      requires gateway.Valid()
      modifies gateway
      ensures gateway.Valid()
      ensures gateway.sockets == Flushed(old(gateway.sockets), positions, emittedAt)
      ensures forall s :: s in gateway.sockets ==> Gained(old(gateway.sockets)[s], gateway.sockets[s], positions, emittedAt)
    {
      AllGain(gateway.sockets, positions, emittedAt);
      RouteThenBroadcast(gateway.sockets, positions, emittedAt);
      var byZone := GroupByZone(positions);
      EmitGroups(positions, byZone, emittedAt);
      EmitChunked(ToUnfiltered, positions, emittedAt);
    }

    /** The fast path when nobody filters by zone, the routed one otherwise. */
    method EmitBatch(positions: seq<Position>, emittedAt: int)
      requires gateway.Valid()
      modifies gateway
      ensures gateway.Valid()
      ensures gateway.sockets == Flushed(old(gateway.sockets), positions, emittedAt)
      ensures forall s :: s in gateway.sockets ==> Gained(old(gateway.sockets)[s], gateway.sockets[s], positions, emittedAt)
    {
      AllGain(gateway.sockets, positions, emittedAt);
      var filtered := gateway.LocalFilteredSize();
      if filtered == 0 {
        FastPathRefines(gateway.sockets, positions, emittedAt);
        EmitChunked(ToOps, positions, emittedAt);
        return;
      }
      EmitRouted(positions, emittedAt);
    }

    /** One flush: every local socket gets the frames its rooms call for, and the buffer is empty. */
    method Flush(emittedAt: int)
      requires Valid()
      modifies this`pending, this`window, gateway
      ensures Valid()
      ensures destroyed ==> window == old(window) && gateway.sockets == old(gateway.sockets)
      ensures !destroyed ==> window == []
      ensures !destroyed ==> gateway.sockets == Flushed(old(gateway.sockets), Values(Window(old(window))), emittedAt)
      ensures !destroyed ==>
                forall s :: s in gateway.sockets ==> GainedNewest(old(gateway.sockets)[s], gateway.sockets[s], old(window), emittedAt)
    {
      FlushedGainsNewest(gateway.sockets, window, emittedAt);
      if destroyed { return; }
      var ops := gateway.LocalOpsSize();
      if ops == 0 {
        NobodyInPlace(gateway.sockets);
        pending := Empty();
        window := [];
        return;
      }
      var positions := Values(pending);
      if |pending.keys| == 0 {
        FlushNothing(gateway.sockets, emittedAt);
        assert positions == [];
        window := [];
        return;
      }
      pending := Empty();
      window := [];
      EmitBatch(positions, emittedAt);
    }

    method OnModuleDestroy()
      modifies this`destroyed
      ensures destroyed
    {
      destroyed := true;
    }
  }

  lemma FlushedGainsNewest(sockets: Sockets, window: seq<Position>, emittedAt: int)
    requires AllInPlace(sockets)
    ensures forall s :: s in sockets ==>
              GainedNewest(sockets[s], Flushed(sockets, Values(Window(window)), emittedAt)[s], window, emittedAt)
  {
    var after := Flushed(sockets, Values(Window(window)), emittedAt);
    forall s | s in sockets ensures GainedNewest(sockets[s], after[s], window, emittedAt) {
      FlushedGains(sockets, Values(Window(window)), emittedAt, s);
      WindowGains(sockets[s], after[s], window, emittedAt);
    }
  }

  lemma NobodyInPlace(sockets: Sockets)
    requires AllInPlace(sockets)
    requires forall s :: s in sockets ==> Ops !in sockets[s].rooms
    ensures sockets == map[]
  {
  }

  lemma FlushNothing(sockets: Sockets, emittedAt: int)
    ensures Flushed(sockets, [], emittedAt) == sockets
  {
    forall s | s in sockets ensures Flushed(sockets, [], emittedAt)[s] == sockets[s] {
      assert FlushFrames(sockets[s].rooms, [], emittedAt) == [];
      assert sockets[s].inbox + [] == sockets[s].inbox;
    }
  }

  /** One turn of the chunk loop. */
  lemma ChunkAt(group: seq<Position>, offset: nat, emittedAt: int)
    requires offset < |group|
    ensures var end := if offset + CHUNK_SIZE < |group| then offset + CHUNK_SIZE else |group|;
            var rest := if offset + CHUNK_SIZE < |group| then group[offset + CHUNK_SIZE..] else [];
            Chunks(group[offset..], emittedAt) == [LocationUpdate(group[offset..end], emittedAt)] + Chunks(rest, emittedAt)
  {
    if offset + CHUNK_SIZE < |group| {
      assert group[offset..][..CHUNK_SIZE] == group[offset..offset + CHUNK_SIZE];
      assert group[offset..][CHUNK_SIZE..] == group[offset + CHUNK_SIZE..];
    } else {
      assert group[offset..|group|] == group[offset..];
    }
  }
}
