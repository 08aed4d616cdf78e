/**
 The `/admin` namespace of one node: sockets, the rooms they sit in, and the
 local emits the relays use.
 */
module AdminNamespace {
  import opened Options
  import opened Coalesce
  import Tickets

  /** The room vocabulary. `ZoneFiltered` is the gateway's own bookkeeping. */
  datatype Room =
    | Ops
    | User(adminId: string)
    | Zone(zoneId: string)
    | Booking(bookingId: string)
    | ZoneFiltered

  function Name(r: Room): string {
    match r
    case Ops => "admin:ops"
    case User(id) => "admin:user:" + id
    case Zone(id) => "admin:zone:" + id
    case Booking(id) => "admin:booking:" + id
    case ZoneFiltered => "admin:zone-filtered"
  }

  function Initial(r: Room): char {
    match r
    case Ops => 'o'
    case User(_) => 'u'
    case Zone(_) => 'z'
    case Booking(_) => 'b'
    case ZoneFiltered => 'z'
  }

  /** No two rooms share a name, so rooms may be told apart by their constructors. */
  lemma NamesAreInjective(a: Room, b: Room)
    requires a != b
    ensures Name(a) != Name(b)
  {
    assert Name(a)[6] == Initial(a) && Name(b)[6] == Initial(b);
    match (a, b)
    case (User(x), User(y)) => assert Name(a)[11..] == x && Name(b)[11..] == y;
    case (Zone(x), Zone(y)) => assert Name(a)[11..] == x && Name(b)[11..] == y;
    case (Booking(x), Booking(y)) => assert Name(a)[14..] == x && Name(b)[14..] == y;
    case (Zone(_), ZoneFiltered) => assert Name(a)[10] != Name(b)[10];
    case (ZoneFiltered, Zone(_)) => assert Name(a)[10] != Name(b)[10];
    case _ =>
  }

  /** What a driver ping says besides the driver and the time; `zoneId` may be null. */
  datatype DriverFix = DriverFix(
    zoneId: Option<string>, lat: real, lng: real, headingDeg: Option<real>, speedKph: Option<real>)

  type Position = Ping<string, DriverFix>

  /** Booking statuses; only the one a creation implies is named here. */
  datatype JobStatus = Searching | Status(name: string)

  /** A person in trouble, as the alert's frame reports it. */
  datatype Alert = Alert(
    alertId: string, subjectType: string, subjectId: string, bookingId: Option<string>,
    lat: real, lng: real, status: string, at: int, duplicate: bool)

  datatype Frame =
    | Ready(adminId: string, subRole: Tickets.SubRole, serverTime: int)
    | LocationUpdate(positions: seq<Position>, emittedAt: int)
    | BookingStatus(bookingId: string, status: JobStatus, zoneId: Option<string>, driverId: Option<string>, at: int)
    | OpsMetrics(kpis: string, at: int)
    | OpsBadges(badges: string, at: int)
    | SosAlert(alert: Alert)

  datatype Socket = Socket(adminId: string, rooms: set<Room>, filterRooms: seq<Room>, inbox: seq<Frame>)

  type Sockets = map<nat, Socket>

  /** A validated `ops:subscribe` payload; `None` zoneIds and `None` bookingId are absent fields. */
  datatype Filter = Filter(zoneIds: Option<seq<string>>, bookingId: Option<string>)

  // ---- rooms as a function of identity and filter ------------------------------------

  predicate HasZone(rooms: seq<Room>) {
    exists r :: r in rooms && r.Zone?
  }

  /** Where an operator belongs: the two handshake rooms, the filter rooms, and the mark of a zone filter. */
  function RoomsFor(adminId: string, filterRooms: seq<Room>): set<Room> {
    {Ops, User(adminId)}
    + (set r | r in filterRooms)
    + (if HasZone(filterRooms) then {ZoneFiltered} else {})
  }

  /** What every reachable socket satisfies. */
  ghost predicate InPlace(s: Socket) {
    && s.adminId != ""
    && (forall r :: r in s.filterRooms ==> r.Zone? || r.Booking?)
    && s.rooms == RoomsFor(s.adminId, s.filterRooms)
  }

  ghost predicate AllInPlace(sockets: Sockets) {
    forall s :: s in sockets ==> InPlace(sockets[s])
  }

  function FilterRooms(f: Filter): seq<Room> {
    var zones := if f.zoneIds.None? then [] else f.zoneIds.value;
    seq(|zones|, i requires 0 <= i < |zones| => Zone(zones[i]))
    + (if f.bookingId.Some? && f.bookingId.value != "" then [Booking(f.bookingId.value)] else [])
  }

  /** The filter rooms the last granted filter calls for. */
  function GrantedRooms(filter: Option<Filter>): seq<Room> {
    if filter.None? then [] else FilterRooms(filter.value)
  }

  /**
   Room by room: everybody is in the ops room and in their own; in the room of a zone the
   filter names, and of the booking it names unless that id is empty; and marked as zone
   filtered when it names a zone.
   */
  ghost predicate Belongs(adminId: string, filter: Option<Filter>, r: Room) {
    match r
    case Ops => true
    case User(a) => a == adminId
    case Zone(z) => filter.Some? && filter.value.zoneIds.Some? && z in filter.value.zoneIds.value
    case Booking(b) => filter.Some? && filter.value.bookingId == Some(b) && b != ""
    case ZoneFiltered => filter.Some? && filter.value.zoneIds.Some? && filter.value.zoneIds.value != []
  }

  lemma FilterRoomsAre(f: Filter, adminId: string, r: Room)
    ensures r in FilterRooms(f) <==> (r.Zone? || r.Booking?) && Belongs(adminId, Some(f), r)
  {
    var zones := if f.zoneIds.None? then [] else f.zoneIds.value;
    var zoned := seq(|zones|, i requires 0 <= i < |zones| => Zone(zones[i]));
    assert forall i :: 0 <= i < |zones| ==> zoned[i] == Zone(zones[i]) && zoned[i] in FilterRooms(f);
    if r in FilterRooms(f) && r.Zone? {
      assert r in zoned;
    }
  }

  /** The rooms of an operator are the ones it belongs in. */
  lemma RoomsAre(adminId: string, filter: Option<Filter>, r: Room)
    ensures r in RoomsFor(adminId, GrantedRooms(filter)) <==> Belongs(adminId, filter, r)
  {
    if filter.Some? {
      FilterRoomsAre(filter.value, adminId, r);
      ZonedIff(filter.value);
    }
  }

  /** A subscribe puts the socket where its new filter says, whatever it watched before; a malformed one changes nothing. */
  function Subscribed(s: Socket, payload: Option<Filter>): Socket {
    if payload.None? then s
    else
      var rooms := FilterRooms(payload.value);
      s.(rooms := RoomsFor(s.adminId, rooms), filterRooms := rooms)
  }

  lemma SubscribedInPlace(s: Socket, payload: Option<Filter>)
    requires InPlace(s)
    ensures InPlace(Subscribed(s, payload))
  {
  }

  function Welcomed(adminId: string, subRole: Tickets.SubRole, serverTime: int): Socket {
    Socket(adminId, {Ops, User(adminId)}, [], [Ready(adminId, subRole, serverTime)])
  }

  function Connected(sockets: Sockets, id: nat, adminId: Option<string>, subRole: Tickets.SubRole, serverTime: int): Sockets {
    if adminId.None? || adminId.value == "" then sockets - {id}
    else sockets[id := Welcomed(adminId.value, subRole, serverTime)]
  }

  // ---- emits --------------------------------------------------------------------------

  predicate Addressed(s: Socket, to: set<Room>, except: set<Room>) {
    s.rooms * to != {} && s.rooms * except == {}
  }

  /** Frames emitted to the union of some rooms, less some rooms: one copy per addressed socket. */
  function EmitAll(sockets: Sockets, to: set<Room>, except: set<Room>, frames: seq<Frame>): Sockets {
    map s | s in sockets ::
      if Addressed(sockets[s], to, except) then sockets[s].(inbox := sockets[s].inbox + frames) else sockets[s]
  }

  /** What an emit means, socket by socket. */
  lemma EmittedPointwise(before: Sockets, after: Sockets, to: set<Room>, except: set<Room>, frame: Frame)
    requires after.Keys == before.Keys
    requires forall s :: s in before ==>
               after[s] == before[s].(inbox := before[s].inbox + if Addressed(before[s], to, except) then [frame] else [])
    ensures after == EmitAll(before, to, except, [frame])
  {
    forall s | s in before ensures after[s] == EmitAll(before, to, except, [frame])[s] {
      assert before[s].inbox + [] == before[s].inbox;
    }
  }

  lemma AddressedOne(s: Socket, to: Room, except: set<Room>)
    ensures Addressed(s, {to}, except) <==> to in s.rooms && forall r :: r in except ==> r !in s.rooms
  {
    if to in s.rooms { assert to in s.rooms * {to}; }
    forall r | r in except && r in s.rooms ensures s.rooms * except != {} {
      assert r in s.rooms * except;
    }
  }

  lemma AddressedUnion(s: Socket, rooms: seq<Room>)
    ensures Addressed(s, set r | r in rooms, {}) <==> exists r :: r in rooms && r in s.rooms
  {
    var to := set r | r in rooms;
    if r :| r in rooms && r in s.rooms {
      assert r in s.rooms * to;
    }
    if s.rooms * to != {} {
      var r :| r in s.rooms * to;
    }
  }

  lemma EmitTwice(sockets: Sockets, to: set<Room>, except: set<Room>, a: seq<Frame>, b: seq<Frame>)
    ensures EmitAll(EmitAll(sockets, to, except, a), to, except, b) == EmitAll(sockets, to, except, a + b)
  {
    forall s | s in sockets
      ensures EmitAll(EmitAll(sockets, to, except, a), to, except, b)[s] == EmitAll(sockets, to, except, a + b)[s]
    {
      assert sockets[s].inbox + a + b == sockets[s].inbox + (a + b);
    }
  }

  lemma EmitNothing(sockets: Sockets, to: set<Room>, except: set<Room>)
    ensures EmitAll(sockets, to, except, []) == sockets
  {
    assert forall s :: s in sockets ==> sockets[s].inbox + [] == sockets[s].inbox;
  }

  function WithoutAdmin(sockets: Sockets, adminId: string): Sockets {
    map s | s in sockets && User(adminId) !in sockets[s].rooms :: sockets[s]
  }

  /** A room's local membership. */
  function Members(sockets: Sockets, room: Room): set<nat> {
    set s | s in sockets && room in sockets[s].rooms
  }

  lemma EmptyRoom(sockets: Sockets, room: Room)
    ensures |Members(sockets, room)| == 0 <==> forall s :: s in sockets ==> room !in sockets[s].rooms
  {
    if |Members(sockets, room)| == 0 {
      forall s | s in sockets ensures room !in sockets[s].rooms {
        assert s !in Members(sockets, room);
      }
    }
  }

  lemma Evicted(sockets: Sockets, adminId: string)
    ensures sockets - Members(sockets, User(adminId)) == WithoutAdmin(sockets, adminId)
    ensures Members(sockets, User(adminId)) == {} ==> sockets == WithoutAdmin(sockets, adminId)
  {
    var left, kept := sockets - Members(sockets, User(adminId)), WithoutAdmin(sockets, adminId);
    assert left.Keys == kept.Keys;
    if Members(sockets, User(adminId)) == {} {
      forall s | s in sockets ensures s in kept {
        assert s !in Members(sockets, User(adminId));
      }
    }
  }

  method LeaveAll(joined: set<Room>, rooms: seq<Room>) returns (r: set<Room>)
    ensures r == joined - (set x | x in rooms)
  {
    r := joined;
    for i := 0 to |rooms|
      invariant r == joined - (set x | x in rooms[..i])
    {
      r := r - {rooms[i]};
    }
    assert rooms[..|rooms|] == rooms;
  }

  method JoinAll(joined: set<Room>, rooms: seq<Room>) returns (r: set<Room>)
    ensures r == joined + (set x | x in rooms)
  {
    r := joined;
    for i := 0 to |rooms|
      invariant r == joined + (set x | x in rooms[..i])
    {
      r := r + {rooms[i]};
    }
    assert rooms[..|rooms|] == rooms;
  }

  lemma ZonedIff(f: Filter)
    ensures HasZone(FilterRooms(f)) <==> f.zoneIds.Some? && |f.zoneIds.value| > 0
  {
    if f.zoneIds.Some? && |f.zoneIds.value| > 0 {
      assert FilterRooms(f)[0].Zone? && FilterRooms(f)[0] in FilterRooms(f);
    }
  }

  /** Leaving the recorded filter rooms and joining the new ones loses no handshake room and keeps no old filter room. */
  lemma Resubscribed(s: Socket, f: Filter, joined: set<Room>)
    requires InPlace(s)
    requires joined == s.rooms - (set x | x in s.filterRooms) + (set x | x in FilterRooms(f))
    ensures var zoned := f.zoneIds.Some? && |f.zoneIds.value| > 0;
            RoomsFor(s.adminId, FilterRooms(f)) ==
            if zoned then joined + {ZoneFiltered} else joined - {ZoneFiltered}
  {
    ZonedIff(f);
  }

  class AdminGateway {
    var sockets: Sockets

    ghost predicate Valid()
      reads this
    {
      AllInPlace(sockets)
    }

    constructor ()
      ensures Valid() && sockets == map[]
    {
      sockets := map[];
    }

    /** `adminId` and `subRole` are what the redeemed ticket left on the socket. */
    method HandleConnection(id: nat, adminId: Option<string>, subRole: Tickets.SubRole, serverTime: int)
      requires Valid() && id !in sockets
      modifies this
      ensures Valid() && sockets == Connected(old(sockets), id, adminId, subRole, serverTime)
      ensures forall s :: s != id ==> (s in sockets <==> s in old(sockets)) && (s in sockets ==> sockets[s] == old(sockets)[s])
      ensures id in sockets <==> adminId.Some? && adminId.value != ""
      ensures id in sockets ==>
                && sockets[id].adminId == adminId.value && sockets[id].filterRooms == []
                && (forall r :: r in sockets[id].rooms <==> r == Ops || r == User(adminId.value))
                && sockets[id].inbox == [Ready(adminId.value, subRole, serverTime)]
    {
      if adminId.None? || adminId.value == "" {
        return;
      }
      var rooms := {};
      rooms := rooms + {Ops};
      rooms := rooms + {User(adminId.value)};
      assert rooms == {Ops, User(adminId.value)};
      sockets := sockets[id := Socket(adminId.value, rooms, [], [Ready(adminId.value, subRole, serverTime)])];
    }

    /** The socket is out of every room, and no other socket is touched. */
    method HandleDisconnect(id: nat)
      requires Valid()
      modifies this
      ensures Valid() && id !in sockets
      ensures forall r :: Members(sockets, r) == Members(old(sockets), r) - {id}
      ensures forall s :: s in old(sockets) && s != id ==> s in sockets && sockets[s] == old(sockets)[s]
    {
      sockets := sockets - {id};
    }

    method HandleSubscribe(id: nat, payload: Option<Filter>) returns (ok: bool)
      requires Valid() && id in sockets
      modifies this
      ensures Valid() && ok == payload.Some?
      ensures sockets == old(sockets)[id := Subscribed(old(sockets)[id], payload)]
      ensures payload.None? ==> sockets == old(sockets)
      ensures payload.Some? ==>
                && sockets[id] == old(sockets)[id].(rooms := sockets[id].rooms, filterRooms := sockets[id].filterRooms)
                && (forall r :: r in sockets[id].rooms <==> Belongs(sockets[id].adminId, payload, r))
    {
      SubscribedInPlace(sockets[id], payload);
      forall r ensures r in RoomsFor(sockets[id].adminId, GrantedRooms(payload)) <==> Belongs(sockets[id].adminId, payload, r) {
        RoomsAre(sockets[id].adminId, payload, r);
      }
      if payload.None? {
        return false;
      }
      var socket := sockets[id];
      var joined := LeaveAll(socket.rooms, socket.filterRooms);
      var rooms := FilterRooms(payload.value);
      joined := JoinAll(joined, rooms);
      Resubscribed(socket, payload.value, joined);
      if payload.value.zoneIds.Some? && |payload.value.zoneIds.value| > 0 {
        joined := joined + {ZoneFiltered};
      } else {
        joined := joined - {ZoneFiltered};
      }
      sockets := sockets[id := socket.(rooms := joined, filterRooms := rooms)];
      return true;
    }

    method LocalOpsSize() returns (n: nat)
      ensures n == |Members(sockets, Ops)|
      ensures n == 0 <==> forall s :: s in sockets ==> Ops !in sockets[s].rooms
    {
      EmptyRoom(sockets, Ops);
      n := |Members(sockets, Ops)|;
    }

    method LocalFilteredSize() returns (n: nat)
      ensures n == |Members(sockets, ZoneFiltered)|
      ensures n == 0 <==> forall s :: s in sockets ==> ZoneFiltered !in sockets[s].rooms
    {
      EmptyRoom(sockets, ZoneFiltered);
      n := |Members(sockets, ZoneFiltered)|;
    }

    /** One copy to each socket in the ops room; nothing to the others. */
    method EmitOps(frame: Frame)
      requires Valid()
      modifies this
      ensures Valid() && sockets.Keys == old(sockets).Keys
      ensures forall s :: s in sockets ==>
                sockets[s] == old(sockets)[s].(inbox := old(sockets)[s].inbox +
                  if Ops in old(sockets)[s].rooms then [frame] else [])
    {
      forall s | s in sockets ensures Addressed(sockets[s], {Ops}, {}) <==> Ops in sockets[s].rooms {
        AddressedOne(sockets[s], Ops, {});
      }
      sockets := EmitAll(sockets, {Ops}, {}, [frame]);
    }

    /** One copy to each socket in the ops room without a zone filter; nothing to the others. */
    method EmitOpsUnfiltered(frame: Frame)
      requires Valid()
      modifies this
      ensures Valid() && sockets.Keys == old(sockets).Keys
      ensures forall s :: s in sockets ==>
                sockets[s] == old(sockets)[s].(inbox := old(sockets)[s].inbox +
                  if Ops in old(sockets)[s].rooms && ZoneFiltered !in old(sockets)[s].rooms then [frame] else [])
    {
      forall s | s in sockets
        ensures Addressed(sockets[s], {Ops}, {ZoneFiltered}) <==> Ops in sockets[s].rooms && ZoneFiltered !in sockets[s].rooms
      {
        AddressedOne(sockets[s], Ops, {ZoneFiltered});
      }
      sockets := EmitAll(sockets, {Ops}, {ZoneFiltered}, [frame]);
    }

    /** One copy to each socket in the zone's room; nothing to the others. */
    method EmitZone(zoneId: string, frame: Frame)
      requires Valid()
      modifies this
      ensures Valid() && sockets.Keys == old(sockets).Keys
      ensures forall s :: s in sockets ==>
                sockets[s] == old(sockets)[s].(inbox := old(sockets)[s].inbox +
                  if Zone(zoneId) in old(sockets)[s].rooms then [frame] else [])
    {
      forall s | s in sockets ensures Addressed(sockets[s], {Zone(zoneId)}, {}) <==> Zone(zoneId) in sockets[s].rooms {
        AddressedOne(sockets[s], Zone(zoneId), {});
      }
      sockets := EmitAll(sockets, {Zone(zoneId)}, {}, [frame]);
    }

    /** Chained `.to()` is a union: a socket in several of the rooms is emitted to once. */
    method EmitRooms(rooms: seq<Room>, frame: Frame)
      requires Valid()
      modifies this
      ensures Valid()
      ensures sockets == if rooms == [] then old(sockets) else EmitAll(old(sockets), set r | r in rooms, {}, [frame])
      ensures sockets.Keys == old(sockets).Keys
      ensures forall s :: s in sockets ==>
                sockets[s] == old(sockets)[s].(inbox := old(sockets)[s].inbox +
                  if exists r :: r in rooms && r in old(sockets)[s].rooms then [frame] else [])
    {
      forall s | s in sockets
        ensures Addressed(sockets[s], set r | r in rooms, {}) <==> exists r :: r in rooms && r in sockets[s].rooms
      {
        AddressedUnion(sockets[s], rooms);
      }

      if |rooms| == 0 { return; }
      var operator := {rooms[0]};
      for i := 1 to |rooms|
        invariant sockets == old(sockets) && Valid()
        invariant operator == set r | r in rooms[..i]
      {
        operator := operator + {rooms[i]};
      }
      assert rooms[..|rooms|] == rooms;
      sockets := EmitAll(sockets, operator, {}, [frame]);
    }

    method DropLocalAdmin(adminId: string) returns (size: nat)
      requires Valid()
      modifies this
      ensures Valid() && sockets == WithoutAdmin(old(sockets), adminId)
      ensures size == |Members(old(sockets), User(adminId))|
      ensures forall s :: s in sockets <==> s in old(sockets) && old(sockets)[s].adminId != adminId
      ensures forall s :: s in sockets ==> sockets[s] == old(sockets)[s]
    {
      EmptyRoom(sockets, User(adminId));
      Evicted(sockets, adminId);
      var room := Members(sockets, User(adminId));
      size := |room|;
      if size > 0 {
        sockets := sockets - room;
      }
    }
  }
}
