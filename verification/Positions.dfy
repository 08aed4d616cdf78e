/**
 The positions snapshot. Postgres decides which trucks exist and in what order;
 Redis may only make the listed trucks fresher.
 */
module Positions {
  import opened Options
  import opened JsMap
  import opened Slices
  import opened FirstOccurrence

  datatype Point = Point(lat: real, lng: real)

  /** One row of the join of trucks, drivers and active bookings. */
  datatype TruckRow = TruckRow(
    truckId: string, plate: string, status: string, driverName: Option<string>,
    lat: Option<real>, lng: Option<real>, lastPingAt: Option<int>,
    activeBookingId: Option<string>,
    pickupLat: Option<real>, pickupLng: Option<real>,
    dropLat: Option<real>, dropLng: Option<real>)

  // ---- one marker per truck -------------------------------------------------------

  /** The row that stands for its truck: the first one with an active booking, else the last one. */
  ghost predicate IsChosen(rows: seq<TruckRow>, i: nat) {
    && i < |rows|
    && if rows[i].activeBookingId.Some?
       then forall j :: 0 <= j < i && rows[j].truckId == rows[i].truckId ==> rows[j].activeBookingId.None?
       else forall j :: 0 <= j < |rows| && rows[j].truckId == rows[i].truckId ==>
                          rows[j].activeBookingId.None? && j <= i
  }

  ghost predicate Chosen(rows: seq<TruckRow>, row: TruckRow) {
    exists i: nat :: i < |rows| && IsChosen(rows, i) && rows[i] == row
  }

  function TruckIds(rows: seq<TruckRow>): seq<string> {
    seq(|rows|, i requires 0 <= i < |rows| => rows[i].truckId)
  }

  /** Truck ids in order of first occurrence. */
  function TruckOrder(rows: seq<TruckRow>): seq<string> {
    Firsts(TruckIds(rows))
  }

  ghost predicate Deduped(rows: seq<TruckRow>, byTruck: JsMap<string, TruckRow>) {
    && byTruck.keys == TruckOrder(rows)
    && (forall i :: 0 <= i < |rows| ==> rows[i].truckId in byTruck.vals)
    && (forall t :: t in byTruck.vals ==> byTruck.vals[t].truckId == t && Chosen(rows, byTruck.vals[t]))
  }

  lemma ChosenKept(rows: seq<TruckRow>, row: TruckRow, kept: TruckRow)
    requires Chosen(rows, kept)
    requires row.truckId != kept.truckId || kept.activeBookingId.Some?
    ensures Chosen(rows + [row], kept)
  {
    var i: nat :| i < |rows| && IsChosen(rows, i) && rows[i] == kept;
    assert IsChosen(rows + [row], i);
  }

  lemma ChosenLast(rows: seq<TruckRow>, row: TruckRow)
    requires forall j :: 0 <= j < |rows| && rows[j].truckId == row.truckId ==> rows[j].activeBookingId.None?
    ensures Chosen(rows + [row], row)
  {
    assert IsChosen(rows + [row], |rows|);
  }

  lemma ChosenIdle(rows: seq<TruckRow>, row: TruckRow)
    requires Chosen(rows, row) && row.activeBookingId.None?
    ensures forall j :: 0 <= j < |rows| && rows[j].truckId == row.truckId ==> rows[j].activeBookingId.None?
  {
  }

  function DedupeOne(byTruck: JsMap<string, TruckRow>, row: TruckRow): JsMap<string, TruckRow> {
    if row.truckId in byTruck.vals && byTruck.vals[row.truckId].activeBookingId.Some? then byTruck
    else Put(byTruck, row.truckId, row)
  }

  lemma DedupeStepAt(rows: seq<TruckRow>, byTruck: JsMap<string, TruckRow>, row: TruckRow, t: string)
    requires Deduped(rows, byTruck)
    requires t in DedupeOne(byTruck, row).vals
    ensures DedupeOne(byTruck, row).vals[t].truckId == t
    ensures Chosen(rows + [row], DedupeOne(byTruck, row).vals[t])
  {
    if t != row.truckId || (t in byTruck.vals && byTruck.vals[t].activeBookingId.Some?) {
      ChosenKept(rows, row, byTruck.vals[t]);
    } else {
      if t in byTruck.vals {
        ChosenIdle(rows, byTruck.vals[t]);
      }
      ChosenLast(rows, row);
    }
  }

  lemma DedupeOrder(rows: seq<TruckRow>, byTruck: JsMap<string, TruckRow>, row: TruckRow)
    requires byTruck.keys == TruckOrder(rows)
    ensures DedupeOne(byTruck, row).keys == TruckOrder(rows + [row])
  {
    assert TruckIds(rows + [row]) == TruckIds(rows) + [row.truckId];
    FirstsStep(TruckIds(rows), row.truckId);
    assert row.truckId in byTruck.keys <==> row.truckId in byTruck.vals;
  }

  lemma DedupeCovers(rows: seq<TruckRow>, byTruck: JsMap<string, TruckRow>, row: TruckRow, i: nat)
    requires forall j :: 0 <= j < |rows| ==> rows[j].truckId in byTruck.vals
    requires i < |rows + [row]|
    ensures (rows + [row])[i].truckId in DedupeOne(byTruck, row).vals
  {
  }

  lemma DedupeStep(rows: seq<TruckRow>, byTruck: JsMap<string, TruckRow>, row: TruckRow)
    requires Deduped(rows, byTruck)
    ensures Deduped(rows + [row], DedupeOne(byTruck, row))
  {
    var after := DedupeOne(byTruck, row);
    DedupeOrder(rows, byTruck, row);
    forall i | 0 <= i < |rows + [row]| ensures (rows + [row])[i].truckId in after.vals {
      DedupeCovers(rows, byTruck, row, i);
    }
    forall t | t in after.vals
      ensures after.vals[t].truckId == t && Chosen(rows + [row], after.vals[t])
    {
      DedupeStepAt(rows, byTruck, row, t);
    }
  }

  /** One row per truck, in first-occurrence order, each the chosen one; no truck left out. */
  ghost predicate OnePerTruck(rows: seq<TruckRow>, trucks: seq<TruckRow>) {
    && |trucks| == |TruckOrder(rows)|
    && (forall i :: 0 <= i < |trucks| ==> trucks[i].truckId == TruckOrder(rows)[i] && Chosen(rows, trucks[i]))
    && (forall i, j :: 0 <= i < j < |trucks| ==> trucks[i].truckId != trucks[j].truckId)
    && (forall i :: 0 <= i < |rows| ==> rows[i].truckId in TruckOrder(rows))
  }

  lemma DedupedValues(rows: seq<TruckRow>, byTruck: JsMap<string, TruckRow>)
    requires Deduped(rows, byTruck)
    ensures OnePerTruck(rows, Values(byTruck))
  {
    var trucks := Values(byTruck);
    forall i | 0 <= i < |trucks| ensures trucks[i].truckId == TruckOrder(rows)[i] && Chosen(rows, trucks[i]) {
      assert byTruck.keys[i] in byTruck.vals;
    }
  }

  method TrucksFor(rows: seq<TruckRow>) returns (trucks: seq<TruckRow>)
    ensures OnePerTruck(rows, trucks)
  {
    var byTruck: JsMap<string, TruckRow> := Empty();
    for n := 0 to |rows|
      invariant Deduped(rows[..n], byTruck)
    {
      var row := rows[n];
      PrefixGrows(rows, n);
      DedupeStep(rows[..n], byTruck, row);
      if row.truckId in byTruck.vals && byTruck.vals[row.truckId].activeBookingId.Some? {
        continue;
      }
      byTruck := Put(byTruck, row.truckId, row);
    }
    assert rows[..|rows|] == rows;
    DedupedValues(rows, byTruck);
    trucks := Values(byTruck);
  }

  // ---- the hot read ---------------------------------------------------------------

  /**
   One HGETALL reply. A number is absent when missing or not finite, the timestamp when missing or empty.
   Timestamps are milliseconds throughout.
   */
  datatype Reply =
    | Failed
    | Hash(at: Option<int>, lat: Option<real>, lng: Option<real>, heading: Option<real>, speedKph: Option<real>)

  datatype Hot = Hot(lat: real, lng: real, heading: Option<real>, speedKph: Option<real>, at: int)

  const MISSING_HASH := Hash(None, None, None, None, None)

  /** Redis as the read sees it; a key that is not there answers with an empty hash. */
  type Redis = map<string, Reply>

  function ReplyOf(redis: Redis, truckId: string): Reply {
    if truckId in redis then redis[truckId] else MISSING_HASH
  }

  predicate NoTimestamp(r: Reply) {
    r.Hash? && r.at.None?
  }

  function HotOf(r: Reply): Option<Hot> {
    if r.Failed? || NoTimestamp(r) || r.lat.None? || r.lng.None? then None
    else Some(Hot(r.lat.value, r.lng.value, r.heading, r.speedKph, r.at.value))
  }

  function ExpiredIds(trucks: seq<TruckRow>, redis: Redis): seq<string> {
    if trucks == [] then []
    else
      var before := ExpiredIds(trucks[..|trucks| - 1], redis);
      var t := trucks[|trucks| - 1].truckId;
      if NoTimestamp(ReplyOf(redis, t)) then before + [t] else before
  }

  /** A reply with a timestamp and both coordinates. */
  predicate IsHot(r: Reply) {
    r.Hash? && r.at.Some? && r.lat.Some? && r.lng.Some?
  }

  /** Field by field, what a hot position says. */
  predicate SaysReply(h: Hot, r: Reply)
    requires IsHot(r)
  {
    h.lat == r.lat.value && h.lng == r.lng.value && h.heading == r.heading && h.speedKph == r.speedKph && h.at == r.at.value
  }

  /** Reads only the listed trucks: a Redis member Postgres does not list never enters the result. */
  method ReadHot(trucks: seq<TruckRow>, redis: Redis) returns (out: map<string, Hot>, expired: seq<string>)
    ensures IsRead(trucks, Some(redis), out)
    ensures expired == ExpiredIds(trucks, redis)
  {
    out, expired := map[], [];
    for n := 0 to |trucks|
      invariant forall t :: t in out <==> (exists i :: 0 <= i < n && trucks[i].truckId == t) && IsHot(ReplyOf(redis, t))
      invariant forall t :: t in out ==> SaysReply(out[t], ReplyOf(redis, t))
      invariant expired == ExpiredIds(trucks[..n], redis)
    {
      assert trucks[..n + 1][..n] == trucks[..n];
      var truckId := trucks[n].truckId;
      var reply := ReplyOf(redis, truckId);
      if reply.Failed? { continue; }
      if reply.at.None? {
        expired := expired + [truckId];
        continue;
      }
      if reply.lat.None? || reply.lng.None? { continue; }
      out := out[truckId := Hot(reply.lat.value, reply.lng.value, reply.heading, reply.speedKph, reply.at.value)];
    }
    assert trucks[..|trucks|] == trucks;
  }

  // ---- the snapshot ---------------------------------------------------------------

  datatype Leg = Leg(pickup: Point, drop: Option<Point>)

  /** What the console knows about a truck that no ping may change. */
  datatype Identity = Identity(
    truckId: string, plate: string, status: string, driverName: Option<string>,
    activeBookingId: Option<string>, activeJobLeg: Option<Leg>)

  /** Where a truck is, and when it said so. */
  datatype Fixed = Fixed(
    lat: Option<real>, lng: Option<real>, heading: Option<real>, speedKph: Option<real>,
    at: Option<int>, fromFallback: bool)

  datatype Marker = Marker(id: Identity, fix: Fixed)

  function LegOf(truck: TruckRow): Option<Leg> {
    if truck.activeBookingId.None? || truck.pickupLat.None? || truck.pickupLng.None? then None
    else
      var drop := if truck.dropLat.None? || truck.dropLng.None? then None
                  else Some(Point(truck.dropLat.value, truck.dropLng.value));
      Some(Leg(Point(truck.pickupLat.value, truck.pickupLng.value), drop))
  }

  function IdentityOf(truck: TruckRow): Identity {
    Identity(truck.truckId, truck.plate, truck.status, truck.driverName, truck.activeBookingId, LegOf(truck))
  }

  function ToDto(truck: TruckRow, hot: Option<Hot>): Marker {
    var fix := match hot
      case Some(h) => Fixed(Some(h.lat), Some(h.lng), h.heading, h.speedKph, Some(h.at), false)
      case None => Fixed(truck.lat, truck.lng, None, None, truck.lastPingAt, true);
    Marker(IdentityOf(truck), fix)
  }

  /** A service zone as the console draws it. */
  datatype Zone = Zone(id: string, name: string, geometry: string)

  datatype Snapshot = Snapshot(positions: seq<Marker>, zones: seq<Zone>, at: int, degraded: bool)

  /** The positions every Redis state is meant to produce. `None` is a Redis that cannot be reached. */
  function PositionsOf(trucks: seq<TruckRow>, redis: Option<Redis>): seq<Marker> {
    seq(|trucks|, i requires 0 <= i < |trucks| =>
      ToDto(trucks[i], if redis.None? then None else HotOf(ReplyOf(redis.value, trucks[i].truckId))))
  }

  /** The leg of a truck with an active booking that has a pickup; its drop needs both coordinates. */
  predicate IsLegOf(leg: Option<Leg>, truck: TruckRow) {
    if truck.activeBookingId.Some? && truck.pickupLat.Some? && truck.pickupLng.Some? then
      && leg.Some? && leg.value.pickup.lat == truck.pickupLat.value && leg.value.pickup.lng == truck.pickupLng.value
      && if truck.dropLat.Some? && truck.dropLng.Some? then
           leg.value.drop.Some? && leg.value.drop.value.lat == truck.dropLat.value && leg.value.drop.value.lng == truck.dropLng.value
         else leg.value.drop.None?
    else leg.None?
  }

  /** Field by field: identity from the row; position from the reply when it is hot, and from the row, standing still, otherwise. */
  predicate IsMarkerOf(m: Marker, truck: TruckRow, redis: Option<Redis>) {
    && m.id.truckId == truck.truckId && m.id.plate == truck.plate && m.id.status == truck.status
    && m.id.driverName == truck.driverName && m.id.activeBookingId == truck.activeBookingId
    && IsLegOf(m.id.activeJobLeg, truck)
    && if redis.Some? && IsHot(ReplyOf(redis.value, truck.truckId)) then
         var r := ReplyOf(redis.value, truck.truckId);
         && m.fix.lat == r.lat && m.fix.lng == r.lng && m.fix.heading == r.heading && m.fix.speedKph == r.speedKph
         && m.fix.at == r.at && !m.fix.fromFallback
       else
         && m.fix.lat == truck.lat && m.fix.lng == truck.lng && m.fix.heading == None && m.fix.speedKph == None
         && m.fix.at == truck.lastPingAt && m.fix.fromFallback
  }

  ghost predicate AreMarkersOf(trucks: seq<TruckRow>, redis: Option<Redis>, ms: seq<Marker>) {
    |ms| == |trucks| && forall i :: 0 <= i < |trucks| ==> IsMarkerOf(ms[i], trucks[i], redis)
  }

  lemma MarkersAre(trucks: seq<TruckRow>, redis: Option<Redis>)
    ensures AreMarkersOf(trucks, redis, PositionsOf(trucks, redis))
  {
  }

  /** An unreachable Redis goes unnoticed when there is no truck to read. */
  method TakeSnapshot(rows: seq<TruckRow>, zones: seq<Zone>, redis: Option<Redis>, now: int) returns (snapshot: Snapshot)
    ensures exists trucks :: OnePerTruck(rows, trucks) && snapshot.positions == PositionsOf(trucks, redis)
                             && AreMarkersOf(trucks, redis, snapshot.positions)
    ensures snapshot.zones == zones && snapshot.at == now
    ensures snapshot.degraded <==> redis.None? && rows != []
  {
    var listed := TrucksFor(rows);
    var hot: map<string, Hot> := map[];
    var degraded := false;
    if |listed| > 0 {
      if redis.Some? {
        var expired;
        hot, expired := ReadHot(listed, redis.value);
      } else {
        degraded := true;
      }
    }
    var positions := Dtos(listed, hot);
    DtosArePositions(listed, redis, hot);
    MarkersAre(listed, redis);
    SomeTruckIff(rows, listed);
    snapshot := Snapshot(positions, zones, now, degraded);
  }

  /** `trucks.map` with the hot positions at hand. */
  function Dtos(trucks: seq<TruckRow>, hot: map<string, Hot>): seq<Marker> {
    seq(|trucks|, i requires 0 <= i < |trucks| =>
      ToDto(trucks[i], if trucks[i].truckId in hot then Some(hot[trucks[i].truckId]) else None))
  }

  /** `hot` is what the read of these trucks gives. */
  ghost predicate IsRead(trucks: seq<TruckRow>, redis: Option<Redis>, hot: map<string, Hot>) {
    match redis
    case None => hot == map[]
    case Some(r) =>
      && (forall t :: t in hot <==> (exists i :: 0 <= i < |trucks| && trucks[i].truckId == t) && IsHot(ReplyOf(r, t)))
      && (forall t :: t in hot ==> SaysReply(hot[t], ReplyOf(r, t)))
  }

  lemma DtosArePositions(trucks: seq<TruckRow>, redis: Option<Redis>, hot: map<string, Hot>)
    requires trucks == [] || IsRead(trucks, redis, hot)
    ensures Dtos(trucks, hot) == PositionsOf(trucks, redis)
  {
    forall i | 0 <= i < |trucks| ensures Dtos(trucks, hot)[i] == PositionsOf(trucks, redis)[i] {
    }
  }

  lemma SomeTruckIff(rows: seq<TruckRow>, trucks: seq<TruckRow>)
    requires OnePerTruck(rows, trucks)
    ensures trucks == [] <==> rows == []
  {
    if rows == [] {
    } else {
      assert rows[0].truckId in TruckOrder(rows);
    }
  }

  /** Whatever else Redis holds, the positions depend only on the hashes of the listed trucks. */
  lemma OtherKeysDoNotMatter(trucks: seq<TruckRow>, a: Redis, b: Redis)
    requires forall i :: 0 <= i < |trucks| ==> ReplyOf(a, trucks[i].truckId) == ReplyOf(b, trucks[i].truckId)
    ensures PositionsOf(trucks, Some(a)) == PositionsOf(trucks, Some(b))
    ensures forall i :: 0 <= i < |trucks| ==>
              PositionsOf(trucks, Some(a))[i].id == PositionsOf(trucks, None)[i].id
  {
  }
}
