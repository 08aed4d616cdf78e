/** Redis events to `/admin` frames: one frame per event, to the union of its rooms. */
module AdminBridge {
  import opened Options
  import opened AdminNamespace

  /** What the schema made of a message on `ops:events`. */
  datatype OpsEvent =
    | Malformed
    | StatusChanged(bookingId: string, zoneId: Option<string>, driverId: Option<string>, to: JobStatus, at: int)
    | Created(bookingId: string, zoneId: Option<string>, scheduledAt: Option<int>, at: int)
    | Metrics(kpis: string, at: int)
    | Badges(badges: string, at: int)
    | Sos(alert: Alert)

  datatype ActivityKind = BookingStatusRow | BookingCreatedRow | SosRow

  /** `kind:subject:at`; the subjects are UUIDs, so the text tells the three apart. */
  datatype ActivityId = ActivityId(kind: ActivityKind, subject: string, at: int)

  /** A row of the activity feed; its kind and its time are those of its id. */
  datatype ActivityItem = ActivityItem(
    id: ActivityId, bookingId: Option<string>, zoneId: Option<string>, status: Option<JobStatus>,
    sosStatus: Option<string>, scheduledAt: Option<int>, action: Option<string>,
    subjectType: Option<string>, subjectId: Option<string>, adminId: Option<string>)

  function FrameOf(e: OpsEvent): seq<Frame> {
    match e
    case Malformed => []
    case StatusChanged(b, z, d, to, at) => [BookingStatus(b, to, z, d, at)]
    case Created(b, z, _, at) => [BookingStatus(b, Searching, z, None, at)]
    case Metrics(k, at) => [OpsMetrics(k, at)]
    case Badges(k, at) => [OpsBadges(k, at)]
    case Sos(alert) => [SosAlert(alert)]
  }

  /** The row of a booking event: what the frame says, and when the booking is scheduled. */
  function BookingRow(kind: ActivityKind, bookingId: string, zoneId: Option<string>, status: JobStatus,
                      scheduledAt: Option<int>, at: int): ActivityItem {
    ActivityItem(ActivityId(kind, bookingId, at), Some(bookingId), zoneId, Some(status), None, scheduledAt, None, None, None, None)
  }

  function AlertRow(alert: Alert): ActivityItem {
    ActivityItem(ActivityId(SosRow, alert.alertId, alert.at), alert.bookingId, None, None, Some(alert.status), None,
                 Some("sos.triggered"), Some(alert.subjectType), Some(alert.subjectId), None)
  }

  /** The feed reports domain events and alerts; the computed kinds are not news. */
  function RowOf(e: OpsEvent): Option<ActivityItem> {
    match e
    case StatusChanged(b, z, _, to, at) => Some(BookingRow(BookingStatusRow, b, z, to, None, at))
    case Created(b, z, scheduled, at) => Some(BookingRow(BookingCreatedRow, b, z, Searching, scheduled, at))
    case Sos(alert) => Some(AlertRow(alert))
    case _ => None
  }

  /** Field by field, what a frame must say about the event it is sent for. */
  ghost predicate Reports(e: OpsEvent, f: Frame) {
    match e
    case Malformed => false
    case StatusChanged(b, z, d, to, at) =>
      f.BookingStatus? && f.bookingId == b && f.status == to && f.zoneId == z && f.driverId == d && f.at == at
    case Created(b, z, _, at) =>
      f.BookingStatus? && f.bookingId == b && f.status == Searching && f.zoneId == z && f.driverId == None && f.at == at
    case Metrics(k, at) => f.OpsMetrics? && f.kpis == k && f.at == at
    case Badges(k, at) => f.OpsBadges? && f.badges == k && f.at == at
    case Sos(alert) => f.SosAlert? && f.alert == alert
  }

  /** The same for the row of the feed: booking events and alerts have one, the computed kinds have none. */
  ghost predicate Records(e: OpsEvent, row: Option<ActivityItem>) {
    match e
    case StatusChanged(b, z, _, to, at) =>
      && row.Some? && row.value.id.kind == BookingStatusRow && row.value.id.subject == b && row.value.id.at == at
      && row.value.bookingId == Some(b) && row.value.zoneId == z && row.value.status == Some(to)
      && row.value.scheduledAt == None && NotAnAlert(row.value)
    case Created(b, z, scheduled, at) =>
      && row.Some? && row.value.id.kind == BookingCreatedRow && row.value.id.subject == b && row.value.id.at == at
      && row.value.bookingId == Some(b) && row.value.zoneId == z && row.value.status == Some(Searching)
      && row.value.scheduledAt == scheduled && NotAnAlert(row.value)
    case Sos(alert) =>
      && row.Some? && row.value.id.kind == SosRow && row.value.id.subject == alert.alertId && row.value.id.at == alert.at
      && row.value.bookingId == alert.bookingId && row.value.sosStatus == Some(alert.status)
      && row.value.action == Some("sos.triggered")
      && row.value.subjectType == Some(alert.subjectType) && row.value.subjectId == Some(alert.subjectId)
      && row.value.zoneId == row.value.adminId == None && row.value.status == None && row.value.scheduledAt == None
    case _ => row.None?
  }

  ghost predicate NotAnAlert(row: ActivityItem) {
    row.sosStatus == row.action == row.subjectType == row.subjectId == row.adminId == None
  }

  /** A socket gained one frame that reports the event, or nothing when it was malformed. */
  ghost predicate Told(before: Socket, after: Socket, e: OpsEvent) {
    && after == before.(inbox := after.inbox)
    && if e.Malformed? then after.inbox == before.inbox
       else |after.inbox| == |before.inbox| + 1 && before.inbox <= after.inbox && Reports(e, after.inbox[|before.inbox|])
  }

  lemma BridgedTells(sockets: Sockets, e: OpsEvent, s: nat)
    requires s in sockets
    ensures Told(sockets[s], Bridged(sockets, e)[s], e)
  {
    if e.Malformed? {
      assert sockets[s].inbox + [] == sockets[s].inbox;
    }
  }

  /** Every well-formed event reaches every operator on the node once, whatever its filters. */
  function Bridged(sockets: Sockets, e: OpsEvent): Sockets {
    map s | s in sockets :: sockets[s].(inbox := sockets[s].inbox + FrameOf(e))
  }

  lemma UnionReachesAllOnce(sockets: Sockets, to: set<Room>, e: OpsEvent)
    requires AllInPlace(sockets) && Ops in to
    ensures EmitAll(sockets, to, {}, FrameOf(e)) == Bridged(sockets, e)
  {
    forall s | s in sockets ensures Addressed(sockets[s], to, {}) {
      assert Ops in sockets[s].rooms * to;
    }
  }

  /** An emit to the ops room alone, which every operator in place is in. */
  lemma BridgedPointwise(before: Sockets, after: Sockets, e: OpsEvent, frame: Frame)
    requires AllInPlace(before) && FrameOf(e) == [frame] && after.Keys == before.Keys
    requires forall s :: s in before ==>
               after[s] == before[s].(inbox := before[s].inbox + if Ops in before[s].rooms then [frame] else [])
    ensures after == Bridged(before, e)
  {
  }

  lemma BridgedNothing(sockets: Sockets)
    ensures Bridged(sockets, Malformed) == sockets
  {
    assert forall s :: s in sockets ==> sockets[s].inbox + [] == sockets[s].inbox;
  }

  class AdminBridgeService {
    const gateway: AdminGateway
    var malformed: nat

    constructor (gateway: AdminGateway)
      ensures this.gateway == gateway && malformed == 0
    {
      this.gateway := gateway;
      malformed := 0;
    }

    /** Emits the event's frame; `row` is the activity append it starts, if any. */
    method OnOpsEvent(event: OpsEvent) returns (row: Option<ActivityItem>)
      requires gateway.Valid()
      modifies this, gateway
      ensures gateway.Valid() && gateway.sockets == Bridged(old(gateway.sockets), event)
      ensures malformed == old(malformed) + if event.Malformed? then 1 else 0
      ensures row == RowOf(event) && Records(event, row)
      ensures gateway.sockets.Keys == old(gateway.sockets).Keys
      ensures forall s :: s in gateway.sockets ==> Told(old(gateway.sockets)[s], gateway.sockets[s], event)
    {
      row := None;
      ghost var before := gateway.sockets;
      forall s | s in before ensures Told(before[s], Bridged(before, event)[s], event) {
        BridgedTells(before, event, s);
      }
      match event {
        case Malformed =>
          BridgedNothing(before);
          malformed := malformed + 1;
        case StatusChanged(b, z, d, to, at) =>
          EmitBookingFrame(event, b, z, d, to, at);
          row := Some(BookingRow(BookingStatusRow, b, z, to, None, at));
        case Created(b, z, scheduled, at) =>
          EmitBookingFrame(event, b, z, None, Searching, at);
          row := Some(BookingRow(BookingCreatedRow, b, z, Searching, scheduled, at));
        case Metrics(k, at) =>
          gateway.EmitOps(OpsMetrics(k, at));
          BridgedPointwise(before, gateway.sockets, event, OpsMetrics(k, at));
        case Badges(k, at) =>
          gateway.EmitOps(OpsBadges(k, at));
          BridgedPointwise(before, gateway.sockets, event, OpsBadges(k, at));
        case Sos(alert) =>
          gateway.EmitOps(SosAlert(alert));
          BridgedPointwise(before, gateway.sockets, event, SosAlert(alert));
          row := Some(AlertRow(alert));
      }
    }

    method EmitBookingFrame(ghost event: OpsEvent, bookingId: string, zoneId: Option<string>,
                            driverId: Option<string>, status: JobStatus, at: int)
      requires gateway.Valid()
      requires FrameOf(event) == [BookingStatus(bookingId, status, zoneId, driverId, at)]
      modifies gateway
      ensures gateway.Valid() && gateway.sockets == Bridged(old(gateway.sockets), event)
    {
      var rooms := [Ops]
                 + (if zoneId.Some? && zoneId.value != "" then [Zone(zoneId.value)] else [])
                 + [Booking(bookingId)];
      assert rooms[0] == Ops;
      UnionReachesAllOnce(gateway.sockets, (set r | r in rooms), event);
      gateway.EmitRooms(rooms, BookingStatus(bookingId, status, zoneId, driverId, at));
    }

    /** `adminId` is the payload's field when it is a string. */
    method OnAdminRevoke(adminId: Option<string>)
      requires gateway.Valid()
      modifies gateway
      ensures gateway.Valid()
      ensures gateway.sockets == if adminId.Some? && adminId.value != ""
                                 then WithoutAdmin(old(gateway.sockets), adminId.value) else old(gateway.sockets)
      ensures forall s :: s in gateway.sockets <==>
                s in old(gateway.sockets) && !(adminId == Some(old(gateway.sockets)[s].adminId) && adminId.value != "")
      ensures forall s :: s in gateway.sockets ==> gateway.sockets[s] == old(gateway.sockets)[s]
    {
      if adminId.None? || adminId.value == "" { return; }
      var dropped := gateway.DropLocalAdmin(adminId.value);
    }
  }
}
