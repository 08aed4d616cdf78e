/**
 The admin fan-out over a cluster: any number of nodes, each with its own sockets
 and its own pace through the three channels it shares with the others, and one door
 where tickets are redeemed. Every step is one of the operations proved in
 `AdminNamespace`, `AdminRelay`, `AdminBridge` and `Tickets`.
 */
module AdminCluster {
  import opened Options
  import opened JsMap
  import opened Slices
  import opened Coalesce
  import opened AdminNamespace
  import opened AdminRelay
  import opened AdminBridge
  import Tickets

  /** One flush a socket was there for: the filter it had been granted, and which of the published pings were flushed. */
  datatype Round = Round(filter: Option<Filter>, from: nat, to: nat, pings: seq<Position>)

  /**
   The past of a socket: the last filter it was granted, what its node has read from the two
   event channels since it connected and from where, and the flushes.
   */
  datatype Heard = Heard(
    filter: Option<Filter>,
    opsFrom: nat, ops: seq<OpsEvent>, revokesFrom: nat, revokes: seq<string>,
    pingsFrom: nat, rounds: seq<Round>)

  /**
   `heard`, `window` (pings read since the last flush) and `flushed` (pings read before)
   record the node's past; no step depends on them.
   */
  datatype Node = Node(
    sockets: Sockets, pending: JsMap<string, Position>,
    pingsRead: nat, opsRead: nat, revokesRead: nat,
    heard: map<nat, Heard>, window: seq<Position>, flushed: seq<Position>)

  /**
   What has been published on each channel, the door, and the nodes. A socket is known by its
   seat at the door, and `connected` are the seats whose connection has been handled.
   */
  datatype Cluster = Cluster(
    pings: seq<Position>, ops: seq<OpsEvent>, revokes: seq<string>,
    door: Tickets.State, connected: set<nat>, nodes: seq<Node>)

  datatype Step =
    | PublishPing(p: Position)
    | PublishOps(e: OpsEvent)
    | PublishRevoke(adminId: string)
    | AtDoor(door: Tickets.Step)
    | At(n: nat, local: LocalStep)

  datatype LocalStep =
    | ReadPing
    | ReadOps
    | ReadRevoke
    | Flush(emittedAt: int)
    | Connect(id: nat, serverTime: int)
    | Subscribe(id: nat, payload: Option<Filter>)
    | Disconnect(id: nat)

  const NEW_NODE := Node(map[], Empty(), 0, 0, 0, map[], [], [])

  function Init(n: nat): Cluster {
    Cluster([], [], [], Tickets.INIT, {}, seq(n, i => NEW_NODE))
  }

  // ---- the steps of one node ---------------------------------------------------------------

  function HearPing(n: Node, p: Position): Node {
    n.(pending := Offer(n.pending, p), window := n.window + [p], pingsRead := n.pingsRead + 1)
  }

  function HearOps(n: Node, e: OpsEvent): Node {
    n.(sockets := Bridged(n.sockets, e), opsRead := n.opsRead + 1,
       heard := map s | s in n.heard :: n.heard[s].(ops := n.heard[s].ops + [e]))
  }

  function HearRevoke(n: Node, adminId: string): Node {
    n.(sockets := WithoutAdmin(n.sockets, adminId), revokesRead := n.revokesRead + 1,
       heard := map s | s in n.heard :: n.heard[s].(revokes := n.heard[s].revokes + [adminId]))
  }

  /** The flush every socket of the node is there for. */
  function RoundOf(n: Node, s: nat): Round {
    Round(if s in n.heard then n.heard[s].filter else None, |n.flushed|, |n.flushed| + |n.window|, n.window)
  }

  function FlushNode(n: Node, emittedAt: int): Node {
    n.(sockets := Flushed(n.sockets, Values(n.pending), emittedAt), pending := Empty(),
       window := [], flushed := n.flushed + n.window,
       heard := map s | s in n.heard :: n.heard[s].(rounds := n.heard[s].rounds + [RoundOf(n, s)]))
  }

  function ConnectTo(n: Node, id: nat, adminId: string, subRole: Tickets.SubRole, serverTime: int): Node {
    n.(sockets := Connected(n.sockets, id, Some(adminId), subRole, serverTime),
       heard := n.heard[id := Heard(None, n.opsRead, [], n.revokesRead, [], |n.flushed|, [])])
  }

  function SubscribeOn(n: Node, id: nat, payload: Option<Filter>): Node
    requires id in n.sockets
  {
    n.(sockets := n.sockets[id := Subscribed(n.sockets[id], payload)],
       heard := if payload.Some? && id in n.heard then n.heard[id := n.heard[id].(filter := payload)] else n.heard)
  }

  /** An operator was let in at the door and its connection is still to be handled. */
  predicate MayConnect(c: Cluster, id: nat) {
    id < |c.door.seats| && c.door.seats[id].entrant.Operator? && id !in c.connected
  }

  /** One node's step. A step that is not possible leaves the node alone. */
  function Local(c: Cluster, n: Node, step: LocalStep): Node {
    match step
    case ReadPing => if n.pingsRead < |c.pings| then HearPing(n, c.pings[n.pingsRead]) else n
    case ReadOps => if n.opsRead < |c.ops| then HearOps(n, c.ops[n.opsRead]) else n
    case ReadRevoke => if n.revokesRead < |c.revokes| then HearRevoke(n, c.revokes[n.revokesRead]) else n
    case Flush(at) => FlushNode(n, at)
    case Connect(id, serverTime) =>
      if !MayConnect(c, id) then n
      else ConnectTo(n, id, c.door.seats[id].entrant.adminId, c.door.seats[id].entrant.subRole, serverTime)
    case Subscribe(id, payload) => if id in n.sockets then SubscribeOn(n, id, payload) else n
    case Disconnect(id) => n.(sockets := n.sockets - {id})
  }

  function Next(c: Cluster, step: Step): Cluster {
    match step
    case PublishPing(p) => c.(pings := c.pings + [p])
    case PublishOps(e) => c.(ops := c.ops + [e])
    case PublishRevoke(a) => c.(revokes := c.revokes + [a])
    case AtDoor(step) => c.(door := Tickets.Next(c.door, step))
    case At(n, local) =>
      if n >= |c.nodes| then c
      else c.(nodes := c.nodes[n := Local(c, c.nodes[n], local)],
              connected := if local.Connect? && MayConnect(c, local.id) then c.connected + {local.id} else c.connected)
  }

  /** Any run, from any number of fresh nodes. */
  function After(n: nat, steps: seq<Step>): (c: Cluster)
    ensures |c.nodes| == n
  {
    if steps == [] then Init(n) else Next(After(n, steps[..|steps| - 1]), steps[|steps| - 1])
  }

  // ---- what a socket has been given -----------------------------------------------------------

  /** The event frames of an inbox, in order. */
  function Events(inbox: seq<Frame>): seq<Frame> {
    if inbox == [] then []
    else
      var last := inbox[|inbox| - 1];
      Events(inbox[..|inbox| - 1]) + if last.LocationUpdate? || last.Ready? then [] else [last]
  }

  function FramesOf(events: seq<OpsEvent>): seq<Frame> {
    if events == [] then [] else FramesOf(events[..|events| - 1]) + FrameOf(events[|events| - 1])
  }

  /** What one flush owes: of the pings flushed, the newest of each driver, as far as the filter admits them. */
  function OwedBy(r: Round): seq<Position> {
    Wanted(GrantedRooms(r.filter), Values(Window(r.pings)))
  }

  function Owed(rounds: seq<Round>): multiset<Position> {
    if rounds == [] then multiset{}
    else Owed(rounds[..|rounds| - 1]) + multiset(OwedBy(rounds[|rounds| - 1]))
  }

  ghost predicate IsSlice<T>(log: seq<T>, from: nat, to: nat, part: seq<T>) {
    from <= to <= |log| && part == log[from..to]
  }

  /** Each round flushed the pings it says, of those published. */
  ghost predicate AreStretches(rounds: seq<Round>, pings: seq<Position>) {
    forall i :: 0 <= i < |rounds| ==> IsSlice(pings, rounds[i].from, rounds[i].to, rounds[i].pings)
  }

  /** The rounds cover the pings between two points, without gap or overlap. */
  ghost predicate Tiles(rounds: seq<Round>, from: nat, to: nat) {
    if rounds == [] then from == to
    else
      var last := rounds[|rounds| - 1];
      last.from <= last.to == to && Tiles(rounds[..|rounds| - 1], from, last.from)
  }

  /** Events, revokes and rooms, for a socket with this past. */
  ghost predicate Seated(s: Socket, h: Heard) {
    && InPlace(s)
    && s.filterRooms == GrantedRooms(h.filter)
    && Events(s.inbox) == FramesOf(h.ops)
    && s.adminId !in h.revokes
  }

  /** Positions, for a socket with this past on a node that has flushed these pings. */
  ghost predicate Served(inbox: seq<Frame>, h: Heard, flushed: seq<Position>) {
    && Tiles(h.rounds, h.pingsFrom, |flushed|)
    && AreStretches(h.rounds, flushed)
    && multiset(Carried(inbox)) == Owed(h.rounds)
  }

  ghost predicate SeatInv(n: Node, s: nat)
    requires s in n.sockets
  {
    s in n.heard && Seated(n.sockets[s], n.heard[s]) && Served(n.sockets[s].inbox, n.heard[s], n.flushed)
  }

  ghost predicate NodeInv(n: Node) {
    && n.pending == Window(n.window)
    && forall s :: s in n.sockets ==> SeatInv(n, s)
  }

  // ---- what each step adds to an inbox ----------------------------------------------------------

  lemma {:induction false} EventsConcat(a: seq<Frame>, b: seq<Frame>)
    ensures Events(a + b) == Events(a) + Events(b)
  {
    if b == [] {
      assert a + b == a;
    } else {
      assert (a + b)[..|a + b| - 1] == a + b[..|b| - 1];
      EventsConcat(a, b[..|b| - 1]);
    }
  }

  lemma {:induction false} BatchHasNoEvents(frames: seq<Frame>, emittedAt: int)
    requires IsBatch(frames, emittedAt)
    ensures Events(frames) == []
  {
    if frames == [] {
    } else {
      BatchHasNoEvents(frames[..|frames| - 1], emittedAt);
    }
  }

  lemma OneFrame(f: Frame)
    ensures Events([f]) == if f.LocationUpdate? || f.Ready? then [] else [f]
    ensures Carried([f]) == if f.LocationUpdate? then f.positions else []
  {
    assert [f][..|[f]| - 1] == [];
    assert Events([]) == [] && Carried([]) == [];
  }

  lemma FrameOfIsEvent(e: OpsEvent)
    ensures Events(FrameOf(e)) == FrameOf(e) && Carried(FrameOf(e)) == []
  {
    if e.Malformed? {
    } else {
      var f := FrameOf(e)[0];
      assert FrameOf(e) == [f] && !f.LocationUpdate? && !f.Ready?;
      OneFrame(f);
    }
  }

  lemma SliceStays<T>(log: seq<T>, log': seq<T>, from: nat, to: nat, part: seq<T>)
    requires IsSlice(log, from, to, part) && log <= log'
    ensures IsSlice(log', from, to, part)
  {
    SliceOfPrefix(log, log', from, to);
  }

  lemma StretchesStay(rounds: seq<Round>, pings: seq<Position>, pings': seq<Position>)
    requires AreStretches(rounds, pings) && pings <= pings'
    ensures AreStretches(rounds, pings')
  {
    forall i | 0 <= i < |rounds| ensures IsSlice(pings', rounds[i].from, rounds[i].to, rounds[i].pings) {
      SliceStays(pings, pings', rounds[i].from, rounds[i].to, rounds[i].pings);
    }
  }

  lemma OneRoundMore(rounds: seq<Round>, r: Round, from: nat)
    requires Tiles(rounds, from, r.from) && r.from <= r.to
    ensures Tiles(rounds + [r], from, r.to)
    ensures Owed(rounds + [r]) == Owed(rounds) + multiset(OwedBy(r))
  {
    assert (rounds + [r])[..|rounds + [r]| - 1] == rounds;
  }

  lemma OneStretchMore(rounds: seq<Round>, r: Round, flushed: seq<Position>)
    requires AreStretches(rounds, flushed) && r.from == |flushed| && r.to == |flushed| + |r.pings|
    ensures AreStretches(rounds + [r], flushed + r.pings)
  {
    StretchesStay(rounds, flushed, flushed + r.pings);
    TailOfConcat(flushed, r.pings);
  }

  lemma CarriedBag(a: seq<Frame>, b: seq<Frame>)
    ensures multiset(Carried(a + b)) == multiset(Carried(a)) + multiset(Carried(b))
  {
    CarriedConcat(a, b);
  }

  lemma ServedRound(inbox: seq<Frame>, frames: seq<Frame>, h: Heard, flushed: seq<Position>, r: Round)
    requires r.from == |flushed| && r.to == |flushed| + |r.pings|
    ensures Served(inbox, h, flushed) && multiset(Carried(frames)) == multiset(OwedBy(r)) ==>
              Served(inbox + frames, h.(rounds := h.rounds + [r]), flushed + r.pings)
  {
    if Served(inbox, h, flushed) && multiset(Carried(frames)) == multiset(OwedBy(r)) {
      OneRoundMore(h.rounds, r, h.pingsFrom);
      OneStretchMore(h.rounds, r, flushed);
      CarriedBag(inbox, frames);
    }
  }

  /** A flush, seen from one socket: `window` is what the node read since its last flush. */
  lemma FlushSeated(s: Socket, h: Heard, flushed: seq<Position>, window: seq<Position>, emittedAt: int)
    requires Seated(s, h) && Served(s.inbox, h, flushed)
    ensures var s' := s.(inbox := s.inbox + FlushFrames(s.rooms, Values(Window(window)), emittedAt));
            var h' := h.(rounds := h.rounds + [Round(h.filter, |flushed|, |flushed| + |window|, window)]);
            Seated(s', h') && Served(s'.inbox, h', flushed + window)
  {
    var ps := Values(Window(window));
    var frames := FlushFrames(s.rooms, ps, emittedAt);
    FlushCarriesWanted(s, ps, emittedAt);
    FlushIsExact(s, ps, emittedAt);
    BatchHasNoEvents(frames, emittedAt);
    EventsConcat(s.inbox, frames);
    ServedRound(s.inbox, frames, h, flushed, Round(h.filter, |flushed|, |flushed| + |window|, window));
  }

  lemma HearOpsSeated(s: Socket, h: Heard, flushed: seq<Position>, e: OpsEvent)
    requires Seated(s, h) && Served(s.inbox, h, flushed)
    ensures var s', h' := s.(inbox := s.inbox + FrameOf(e)), h.(ops := h.ops + [e]);
            Seated(s', h') && Served(s'.inbox, h', flushed)
  {
    FrameOfIsEvent(e);
    EventsConcat(s.inbox, FrameOf(e));
    CarriedConcat(s.inbox, FrameOf(e));
    assert (h.ops + [e])[..|h.ops + [e]| - 1] == h.ops;
  }

  lemma HearRevokeSeated(s: Socket, h: Heard, adminId: string)
    requires Seated(s, h)
    requires User(adminId) !in s.rooms
    ensures Seated(s, h.(revokes := h.revokes + [adminId]))
  {
    assert User(s.adminId) in s.rooms;
  }

  lemma WelcomedSeated(adminId: string, subRole: Tickets.SubRole, serverTime: int, h: Heard, flushed: seq<Position>)
    requires adminId != "" && h.filter.None? && h.ops == [] && h.revokes == []
    requires h.rounds == [] && h.pingsFrom == |flushed|
    ensures var s := Welcomed(adminId, subRole, serverTime);
            Seated(s, h) && Served(s.inbox, h, flushed)
  {
    var inbox := [Ready(adminId, subRole, serverTime)];
    OneFrame(inbox[0]);
    assert Events(inbox) == [] && Carried(inbox) == [];
  }

  // ---- what a node keeps -------------------------------------------------------------------------

  lemma HearPingKeeps(n: Node, p: Position)
    requires NodeInv(n)
    ensures NodeInv(HearPing(n, p))
  {
    WindowStep(n.window, p);
    forall s | s in n.sockets ensures SeatInv(HearPing(n, p), s) {
      assert SeatInv(n, s);
    }
  }

  lemma HearOpsSeat(n: Node, e: OpsEvent, s: nat)
    requires s in n.sockets && SeatInv(n, s)
    ensures SeatInv(HearOps(n, e), s)
  {
    HearOpsSeated(n.sockets[s], n.heard[s], n.flushed, e);
  }

  lemma HearOpsKeeps(n: Node, e: OpsEvent)
    requires NodeInv(n)
    ensures NodeInv(HearOps(n, e))
  {
    forall s | s in n.sockets ensures SeatInv(HearOps(n, e), s) {
      HearOpsSeat(n, e, s);
    }
  }

  lemma HearRevokeSeat(n: Node, adminId: string, s: nat)
    requires s in n.sockets && SeatInv(n, s)
    requires s in HearRevoke(n, adminId).sockets
    ensures SeatInv(HearRevoke(n, adminId), s)
  {
    HearRevokeSeated(n.sockets[s], n.heard[s], adminId);
  }

  lemma HearRevokeKeeps(n: Node, adminId: string)
    requires NodeInv(n)
    ensures NodeInv(HearRevoke(n, adminId))
  {
    forall s | s in HearRevoke(n, adminId).sockets ensures SeatInv(HearRevoke(n, adminId), s) {
      HearRevokeSeat(n, adminId, s);
    }
  }

  lemma FlushSeat(n: Node, emittedAt: int, s: nat)
    requires s in n.sockets && SeatInv(n, s) && n.pending == Window(n.window)
    ensures SeatInv(FlushNode(n, emittedAt), s)
  {
    FlushSeated(n.sockets[s], n.heard[s], n.flushed, n.window, emittedAt);
  }

  lemma FlushKeeps(n: Node, emittedAt: int)
    requires NodeInv(n)
    ensures NodeInv(FlushNode(n, emittedAt))
  {
    forall s | s in n.sockets ensures SeatInv(FlushNode(n, emittedAt), s) {
      FlushSeat(n, emittedAt, s);
    }
  }

  lemma ConnectKeeps(n: Node, id: nat, adminId: string, subRole: Tickets.SubRole, serverTime: int)
    requires NodeInv(n) && id !in n.sockets && adminId != ""
    ensures NodeInv(ConnectTo(n, id, adminId, subRole, serverTime))
  {
    var n' := ConnectTo(n, id, adminId, subRole, serverTime);
    forall s | s in n'.sockets ensures SeatInv(n', s) {
      if s == id {
        WelcomedSeated(adminId, subRole, serverTime, n'.heard[id], n.flushed);
      } else {
        assert SeatInv(n, s);
      }
    }
  }

  lemma SubscribedSeated(s: Socket, h: Heard, payload: Option<Filter>)
    requires Seated(s, h)
    ensures Seated(Subscribed(s, payload), if payload.Some? then h.(filter := payload) else h)
  {
    SubscribedInPlace(s, payload);
  }

  lemma SubscribeKeeps(n: Node, id: nat, payload: Option<Filter>)
    requires NodeInv(n) && id in n.sockets
    ensures NodeInv(SubscribeOn(n, id, payload))
  {
    assert SeatInv(n, id);
    SubscribedSeated(n.sockets[id], n.heard[id], payload);
    var n' := SubscribeOn(n, id, payload);
    forall s | s in n'.sockets ensures SeatInv(n', s) {
      assert SeatInv(n, s);
    }
  }

  lemma DisconnectKeeps(n: Node, id: nat)
    requires NodeInv(n)
    ensures NodeInv(n.(sockets := n.sockets - {id}))
  {
    var n' := n.(sockets := n.sockets - {id});
    forall s | s in n'.sockets ensures SeatInv(n', s) {
      assert SeatInv(n, s);
    }
  }

  lemma LocalKeeps(c: Cluster, n: Node, step: LocalStep)
    requires NodeInv(n)
    requires step.Connect? && MayConnect(c, step.id) ==>
               step.id !in n.sockets && c.door.seats[step.id].entrant.adminId != ""
    ensures NodeInv(Local(c, n, step))
  {
    match step
    case ReadPing => if n.pingsRead < |c.pings| { HearPingKeeps(n, c.pings[n.pingsRead]); }
    case ReadOps => if n.opsRead < |c.ops| { HearOpsKeeps(n, c.ops[n.opsRead]); }
    case ReadRevoke => if n.revokesRead < |c.revokes| { HearRevokeKeeps(n, c.revokes[n.revokesRead]); }
    case Flush(at) => FlushKeeps(n, at);
    case Connect(id, t) =>
      if MayConnect(c, id) { ConnectKeeps(n, id, c.door.seats[id].entrant.adminId, c.door.seats[id].entrant.subRole, t); }
    case Subscribe(id, p) => if id in n.sockets { SubscribeKeeps(n, id, p); }
    case Disconnect(id) => DisconnectKeeps(n, id);
  }

  // ---- what a node recorded is what was published -----------------------------------------------

  ghost predicate HeardInv(c: Cluster, n: Node, h: Heard) {
    && IsSlice(c.ops, h.opsFrom, n.opsRead, h.ops)
    && IsSlice(c.revokes, h.revokesFrom, n.revokesRead, h.revokes)
  }

  ghost predicate LogInv(c: Cluster, n: Node) {
    && IsSlice(c.pings, 0, n.pingsRead, n.flushed + n.window)
    && n.opsRead <= |c.ops|
    && n.revokesRead <= |c.revokes|
    && forall s :: s in n.heard ==> HeardInv(c, n, n.heard[s])
  }

  lemma SliceOn<T>(log: seq<T>, from: nat, to: nat, part: seq<T>)
    requires IsSlice(log, from, to, part) && to < |log|
    ensures IsSlice(log, from, to + 1, part + [log[to]])
  {
    SliceGrows(log, from, to);
  }

  lemma LogReadPing(c: Cluster, n: Node)
    requires LogInv(c, n) && n.pingsRead < |c.pings|
    ensures LogInv(c, HearPing(n, c.pings[n.pingsRead]))
  {
    var n' := HearPing(n, c.pings[n.pingsRead]);
    SliceOn(c.pings, 0, n.pingsRead, n.flushed + n.window);
    assert n.flushed + n.window + [c.pings[n.pingsRead]] == n.flushed + (n.window + [c.pings[n.pingsRead]]);
    forall s | s in n'.heard ensures HeardInv(c, n', n'.heard[s]) {
      assert HeardInv(c, n, n.heard[s]);
    }
  }

  lemma LogReadOps(c: Cluster, n: Node)
    requires LogInv(c, n) && n.opsRead < |c.ops|
    ensures LogInv(c, HearOps(n, c.ops[n.opsRead]))
  {
    var n' := HearOps(n, c.ops[n.opsRead]);
    forall s | s in n'.heard ensures HeardInv(c, n', n'.heard[s]) {
      assert HeardInv(c, n, n.heard[s]);
      SliceOn(c.ops, n.heard[s].opsFrom, n.opsRead, n.heard[s].ops);
    }
  }

  lemma LogReadRevoke(c: Cluster, n: Node)
    requires LogInv(c, n) && n.revokesRead < |c.revokes|
    ensures LogInv(c, HearRevoke(n, c.revokes[n.revokesRead]))
  {
    var n' := HearRevoke(n, c.revokes[n.revokesRead]);
    forall s | s in n'.heard ensures HeardInv(c, n', n'.heard[s]) {
      assert HeardInv(c, n, n.heard[s]);
      SliceOn(c.revokes, n.heard[s].revokesFrom, n.revokesRead, n.heard[s].revokes);
    }
  }

  lemma LogFlush(c: Cluster, n: Node, emittedAt: int)
    requires LogInv(c, n)
    ensures LogInv(c, FlushNode(n, emittedAt))
  {
    var n' := FlushNode(n, emittedAt);
    assert n.flushed + n.window + [] == n.flushed + n.window;
    forall s | s in n'.heard ensures HeardInv(c, n', n'.heard[s]) {
      assert HeardInv(c, n, n.heard[s]);
    }
  }

  /** The other steps leave the channels where they are and at most start or relabel one socket's record. */
  lemma LogSame(c: Cluster, n: Node, n': Node)
    requires LogInv(c, n)
    requires n'.flushed == n.flushed && n'.window == n.window
    requires n'.pingsRead == n.pingsRead && n'.opsRead == n.opsRead && n'.revokesRead == n.revokesRead
    requires forall s :: s in n'.heard ==>
               || (s in n.heard && n'.heard[s] == n.heard[s].(filter := n'.heard[s].filter))
               || HeardInv(c, n, n'.heard[s])
    ensures LogInv(c, n')
  {
    forall s | s in n'.heard ensures HeardInv(c, n', n'.heard[s]) {
      if s in n.heard {
        assert HeardInv(c, n, n.heard[s]);
      }
    }
  }

  lemma LogLocal(c: Cluster, n: Node, step: LocalStep)
    requires LogInv(c, n)
    ensures LogInv(c, Local(c, n, step))
  {
    match step
    case ReadPing => if n.pingsRead < |c.pings| { LogReadPing(c, n); }
    case ReadOps => if n.opsRead < |c.ops| { LogReadOps(c, n); }
    case ReadRevoke => if n.revokesRead < |c.revokes| { LogReadRevoke(c, n); }
    case Flush(at) => LogFlush(c, n, at);
    case _ => LogSame(c, n, Local(c, n, step));
  }

  ghost predicate Extends(c: Cluster, c': Cluster) {
    c.pings <= c'.pings && c.ops <= c'.ops && c.revokes <= c'.revokes
  }

  /** Publishing more changes nothing a node has already read. */
  lemma LogPublish(c: Cluster, c': Cluster, n: Node)
    requires LogInv(c, n) && Extends(c, c')
    ensures LogInv(c', n)
  {
    SliceStays(c.pings, c'.pings, 0, n.pingsRead, n.flushed + n.window);
    forall s | s in n.heard ensures HeardInv(c', n, n.heard[s]) {
      assert HeardInv(c, n, n.heard[s]);
      SliceStays(c.ops, c'.ops, n.heard[s].opsFrom, n.opsRead, n.heard[s].ops);
      SliceStays(c.revokes, c'.revokes, n.heard[s].revokesFrom, n.revokesRead, n.heard[s].revokes);
    }
  }

  // ---- who is there -----------------------------------------------------------------------------

  /** The sockets of a node are connected seats, each of the admin who was let in. */
  ghost predicate FromDoor(c: Cluster, n: Node) {
    forall s :: s in n.sockets ==>
      && s in c.connected && s < |c.door.seats|
      && c.door.seats[s].entrant.Operator? && c.door.seats[s].entrant.adminId == n.sockets[s].adminId
  }

  ghost predicate DoorInv(c: Cluster) {
    && Tickets.Inv(c.door)
    && forall i :: 0 <= i < |c.nodes| ==> FromDoor(c, c.nodes[i])
  }

  /** A step at a node adds at most the seat it connects, and changes nobody's admin. */
  lemma LocalSockets(c: Cluster, n: Node, step: LocalStep)
    ensures forall s :: s in Local(c, n, step).sockets ==>
              || (s in n.sockets && Local(c, n, step).sockets[s].adminId == n.sockets[s].adminId)
              || (&& step.Connect? && step.id == s && MayConnect(c, s)
                  && Local(c, n, step).sockets[s].adminId == c.door.seats[s].entrant.adminId)
  {
  }

  lemma DoorStep(c: Cluster, step: Step)
    requires DoorInv(c)
    ensures DoorInv(Next(c, step))
  {
    var c' := Next(c, step);
    if step.AtDoor? {
      Tickets.KeptBy(c.door, step.door);
      Tickets.SeatsGrow(c.door, step.door);
    }
    forall i | 0 <= i < |c'.nodes| ensures FromDoor(c', c'.nodes[i]) {
      assert FromDoor(c, c.nodes[i]);
      if step.At? && step.n == i {
        LocalSockets(c, c.nodes[i], step.local);
      }
    }
  }

  /** Whoever was let in has an id. */
  lemma EntrantHasId(d: Tickets.State, k: nat)
    requires Tickets.Inv(d) && k < |d.seats| && d.seats[k].entrant.Operator?
    ensures d.seats[k].entrant.adminId != ""
  {
    assert Tickets.Admitted(d.desk, d.seats[k]);
  }

  // ---- every run ------------------------------------------------------------------------------

  ghost predicate OneNodeEach(nodes: seq<Node>) {
    forall i, j, s :: 0 <= i < j < |nodes| && s in nodes[i].sockets ==> s !in nodes[j].sockets
  }

  ghost predicate NodesInv(c: Cluster) {
    && (forall i :: 0 <= i < |c.nodes| ==> NodeInv(c.nodes[i]) && LogInv(c, c.nodes[i]))
    && OneNodeEach(c.nodes)
  }

  ghost predicate Inv(c: Cluster) {
    NodesInv(c) && DoorInv(c)
  }

  lemma NextPlaces(c: Cluster, step: Step)
    requires OneNodeEach(c.nodes) && DoorInv(c)
    ensures OneNodeEach(Next(c, step).nodes)
  {
    if step.At? && step.n < |c.nodes| {
      LocalSockets(c, c.nodes[step.n], step.local);
      forall j, s | 0 <= j < |c.nodes| && s in c.nodes[j].sockets ensures s in c.connected {
        assert FromDoor(c, c.nodes[j]);
      }
    }
  }

  lemma LocalInv(c: Cluster, i: nat, step: LocalStep)
    requires Inv(c) && i < |c.nodes|
    ensures NodeInv(Local(c, c.nodes[i], step)) && LogInv(c, Local(c, c.nodes[i], step))
  {
    assert FromDoor(c, c.nodes[i]);
    if step.Connect? && MayConnect(c, step.id) {
      EntrantHasId(c.door, step.id);
    }
    LocalKeeps(c, c.nodes[i], step);
    LogLocal(c, c.nodes[i], step);
  }

  lemma NextKeeps(c: Cluster, step: Step)
    requires Inv(c)
    ensures NodesInv(Next(c, step))
  {
    var c' := Next(c, step);
    NextPlaces(c, step);
    forall i | 0 <= i < |c'.nodes| ensures NodeInv(c'.nodes[i]) && LogInv(c', c'.nodes[i]) {
      if step.At? && step.n == i {
        LocalInv(c, i, step.local);
      }
      assert NodeInv(c'.nodes[i]) && LogInv(c, c'.nodes[i]);
      LogPublish(c, c', c'.nodes[i]);
    }
  }

  lemma {:induction false} Reachable(nodes: nat, steps: seq<Step>)
    ensures Inv(After(nodes, steps))
  {
    if steps == [] {
    } else {
      Reachable(nodes, steps[..|steps| - 1]);
      NextKeeps(After(nodes, steps[..|steps| - 1]), steps[|steps| - 1]);
      DoorStep(After(nodes, steps[..|steps| - 1]), steps[|steps| - 1]);
    }
  }

  // ---- what was given, in the terms of what was published -----------------------------------------

  /** Frames that report some events one by one and in order; a malformed event has none. */
  ghost predicate Reported(events: seq<OpsEvent>, frames: seq<Frame>) {
    if events == [] then frames == []
    else
      var before, last := events[..|events| - 1], events[|events| - 1];
      if last.Malformed? then Reported(before, frames)
      else frames != [] && Reports(last, frames[|frames| - 1]) && Reported(before, frames[..|frames| - 1])
  }

  lemma ReportedMore(events: seq<OpsEvent>, frames: seq<Frame>, e: OpsEvent)
    requires Reported(events, frames)
    ensures Reported(events + [e], frames + FrameOf(e))
  {
    assert (events + [e])[..|events + [e]| - 1] == events;
    if e.Malformed? {
      assert frames + [] == frames;
    } else {
      var f := FrameOf(e)[0];
      assert FrameOf(e) == [f] && (frames + [f])[..|frames + [f]| - 1] == frames;
    }
  }

  lemma {:induction false} FramesReport(events: seq<OpsEvent>)
    ensures Reported(events, FramesOf(events))
  {
    if events == [] {
    } else {
      var n := |events| - 1;
      FramesReport(events[..n]);
      ReportedMore(events[..n], FramesOf(events[..n]), events[n]);
      assert events == events[..n] + [events[n]];
    }
  }

  /** A granted filter admits a position: it names no zone, or the position's own, by a non-empty id. */
  predicate FilterAdmits(filter: Option<Filter>, p: Position) {
    || filter.None? || filter.value.zoneIds.None? || filter.value.zoneIds.value == []
    || (p.body.zoneId.Some? && p.body.zoneId.value != "" && p.body.zoneId.value in filter.value.zoneIds.value)
  }

  lemma GrantedWants(filter: Option<Filter>, p: Position)
    ensures Wants(GrantedRooms(filter), p) <==> FilterAdmits(filter, p)
  {
    if filter.Some? {
      var f, rooms := filter.value, FilterRooms(filter.value);
      forall z ensures z in Zones(rooms) <==> f.zoneIds.Some? && z in f.zoneIds.value {
        FilterRoomsAre(f, "", Zone(z));
      }
      if f.zoneIds.Some? && f.zoneIds.value != [] {
        assert f.zoneIds.value[0] in Zones(rooms);
      }
    }
  }

  /** How often the flushes owe a position: once for each whose filter admitted it and in whose pings it was its driver's newest. */
  ghost function Owes(rounds: seq<Round>, p: Position): nat {
    if rounds == [] then 0
    else
      var last := rounds[|rounds| - 1];
      Owes(rounds[..|rounds| - 1], p) + if FilterAdmits(last.filter, p) && IsNewestPing(last.pings, p) then 1 else 0
  }

  lemma {:induction false} OwedCounts(rounds: seq<Round>, p: Position)
    ensures Owed(rounds)[p] == Owes(rounds, p)
  {
    if rounds == [] {
    } else {
      var last := rounds[|rounds| - 1];
      OwedCounts(rounds[..|rounds| - 1], p);
      WantedCounts(GrantedRooms(last.filter), Values(Window(last.pings)), p);
      GrantedWants(last.filter, p);
      WindowCounts(last.pings, p);
    }
  }

  // ---- the promises -----------------------------------------------------------------------

  /**
   What is promised to an operator on a node: the event frames it received are exactly
   those of the events its node read since it connected, each once and in order; none of
   the revokes read since then named it; and the positions it received are, as a bag,
   exactly what the flushes since it connected owed it, each under the filter in force at
   the time, over successive stretches of what was published.
   */
  ghost predicate Promised(c: Cluster, n: Node, s: nat)
    requires s in n.sockets
  {
    var socket := n.sockets[s];
    && s in n.heard
    && var heard := n.heard[s];
    && heard.opsFrom <= n.opsRead <= |c.ops|
    && heard.revokesFrom <= n.revokesRead <= |c.revokes|
    && Reported(c.ops[heard.opsFrom..n.opsRead], Events(socket.inbox))
    && socket.adminId !in c.revokes[heard.revokesFrom..n.revokesRead]
    && |n.flushed| <= n.pingsRead <= |c.pings|
    && Tiles(heard.rounds, heard.pingsFrom, |n.flushed|)
    && AreStretches(heard.rounds, c.pings)
    && forall p :: multiset(Carried(socket.inbox))[p] == Owes(heard.rounds, p)
  }

  lemma PromisedIn(c: Cluster, n: Node, s: nat)
    requires NodeInv(n) && LogInv(c, n) && s in n.sockets
    ensures Promised(c, n, s)
  {
    assert SeatInv(n, s);
    assert HeardInv(c, n, n.heard[s]);
    assert n.flushed <= n.flushed + n.window <= c.pings;
    StretchesStay(n.heard[s].rounds, n.flushed, c.pings);
    FramesReport(n.heard[s].ops);
    forall p ensures multiset(Carried(n.sockets[s].inbox))[p] == Owes(n.heard[s].rounds, p) {
      OwedCounts(n.heard[s].rounds, p);
    }
  }

  /** In every reachable state of any cluster, every operator has what it is promised, on one node only. */
  lemma EveryOperator(nodes: nat, steps: seq<Step>, i: nat, s: nat)
    requires i < nodes
    requires s in After(nodes, steps).nodes[i].sockets
    ensures Promised(After(nodes, steps), After(nodes, steps).nodes[i], s)
    ensures forall j :: 0 <= j < nodes && j != i ==> s !in After(nodes, steps).nodes[j].sockets
  {
    Reachable(nodes, steps);
    PromisedIn(After(nodes, steps), After(nodes, steps).nodes[i], s);
  }

  /** A spent ticket that was issued to this admin. */
  ghost predicate TicketOf(d: Tickets.Desk, ticket: string, adminId: string) {
    ticket in d.issued && ticket !in d.store && d.issued[ticket].Admin? && d.issued[ticket].subjectId == adminId
  }

  lemma SeatHasTicket(d: Tickets.State, s: nat)
    requires Tickets.Inv(d) && s < |d.seats| && d.seats[s].entrant.Operator?
    ensures TicketOf(d.desk, d.seats[s].ticket, d.seats[s].entrant.adminId)
    ensures forall u :: 0 <= u < |d.seats| && u != s ==> d.seats[u].ticket != d.seats[s].ticket
  {
    assert Tickets.Admitted(d.desk, d.seats[s]);
  }

  /**
   Where a socket is and why: in exactly the rooms the admin its own ticket was issued to
   belongs in under the last filter the schema accepted from it; and no other socket of the
   cluster got in with that ticket.
   */
  ghost predicate RoomsEarned(c: Cluster, n: Node, s: nat)
    requires s in n.sockets
  {
    && s in n.heard && s < |c.door.seats|
    && var socket, filter, ticket, desk := n.sockets[s], n.heard[s].filter, c.door.seats[s].ticket, c.door.desk;
    && TicketOf(desk, ticket, socket.adminId)
    && (forall r :: r in socket.rooms <==> Belongs(socket.adminId, filter, r))
    && forall u :: 0 <= u < |c.door.seats| && u != s ==> c.door.seats[u].ticket != ticket
  }

  lemma SeatedRooms(s: Socket, h: Heard)
    requires Seated(s, h)
    ensures forall r :: r in s.rooms <==> Belongs(s.adminId, h.filter, r)
  {
    forall r ensures r in s.rooms <==> Belongs(s.adminId, h.filter, r) {
      RoomsAre(s.adminId, h.filter, r);
    }
  }

  lemma EarnedIn(c: Cluster, n: Node, s: nat)
    requires NodeInv(n) && Tickets.Inv(c.door) && FromDoor(c, n) && s in n.sockets
    ensures RoomsEarned(c, n, s)
  {
    assert SeatInv(n, s);
    SeatedRooms(n.sockets[s], n.heard[s]);
    SeatHasTicket(c.door, s);
  }

  lemma OnlyEarnedRooms(nodes: nat, steps: seq<Step>, i: nat, s: nat)
    requires i < nodes
    requires s in After(nodes, steps).nodes[i].sockets
    ensures RoomsEarned(After(nodes, steps), After(nodes, steps).nodes[i], s)
  {
    Reachable(nodes, steps);
    EarnedIn(After(nodes, steps), After(nodes, steps).nodes[i], s);
  }

  // ---- leaving ------------------------------------------------------------------------------------

  /** What ends a socket at a node. */
  predicate Ends(c: Cluster, n: Node, step: LocalStep, s: nat)
    requires s in n.sockets
  {
    || step == Disconnect(s)
    || (step == ReadRevoke && n.revokesRead < |c.revokes| && c.revokes[n.revokesRead] == n.sockets[s].adminId)
  }

  lemma LocalLeaves(c: Cluster, n: Node, step: LocalStep, s: nat)
    requires s in n.sockets && InPlace(n.sockets[s])
    requires step.Connect? ==> !MayConnect(c, s)
    ensures s !in Local(c, n, step).sockets <==> Ends(c, n, step, s)
  {
    assert forall a :: User(a) in n.sockets[s].rooms <==> a == n.sockets[s].adminId;
  }

  lemma NextNode(c: Cluster, step: Step, i: nat)
    requires i < |c.nodes|
    ensures i < |Next(c, step).nodes|
    ensures Next(c, step).nodes[i] == if step.At? && step.n == i then Local(c, c.nodes[i], step.local) else c.nodes[i]
  {
  }

  lemma LeavesIn(c: Cluster, i: nat, s: nat, step: Step)
    requires i < |c.nodes| && s in c.nodes[i].sockets && InPlace(c.nodes[i].sockets[s]) && s in c.connected
    ensures i < |Next(c, step).nodes|
    ensures s !in Next(c, step).nodes[i].sockets <==> step.At? && step.n == i && Ends(c, c.nodes[i], step.local, s)
  {
    NextNode(c, step, i);
    if step.At? && step.n == i {
      LocalLeaves(c, c.nodes[i], step.local, s);
    }
  }

  /**
   In every reachable state, exactly what ends a socket: its own disconnect, or its node
   reading a revoke of its own admin.
   */
  lemma LeavesIff(nodes: nat, steps: seq<Step>, i: nat, s: nat, step: Step)
    requires i < nodes && s in After(nodes, steps).nodes[i].sockets
    ensures var c := After(nodes, steps);
            s !in Next(c, step).nodes[i].sockets <==> step.At? && step.n == i && Ends(c, c.nodes[i], step.local, s)
  {
    Reachable(nodes, steps);
    var c := After(nodes, steps);
    assert SeatInv(c.nodes[i], s);
    assert FromDoor(c, c.nodes[i]);
    LeavesIn(c, i, s, step);
  }

  // ---- coming back after a revoke -----------------------------------------------------------------

  lemma AfterStep(nodes: nat, steps: seq<Step>, step: Step)
    ensures After(nodes, steps + [step]) == Next(After(nodes, steps), step)
  {
    assert (steps + [step])[..|steps|] == steps;
  }

  /** An operator shows a ticket at the door, and the connection is handled by a node. */
  function ShowAndConnect(c: Cluster, i: nat, shown: Option<string>, fault: Tickets.Fault, serverTime: int): seq<Step> {
    [AtDoor(Tickets.Handshake(Tickets.AdminConsole, shown, fault)), At(i, Connect(|c.door.seats|, serverTime))]
  }

  /** Exactly when a ticket lets an admin in. */
  ghost predicate LetsIn(d: Tickets.Desk, shown: Option<string>, fault: Tickets.Fault, adminId: string)
    requires forall t :: t in d.store ==> t in d.issued
  {
    && fault.NoFault? && Tickets.Live(d, shown)
    && d.issued[shown.value].Admin? && d.issued[shown.value].subjectId == adminId != ""
  }

  lemma HandshakeLetsIn(d: Tickets.State, shown: Option<string>, fault: Tickets.Fault, adminId: string)
    requires Tickets.Inv(d)
    ensures var d', k := Tickets.Next(d, Tickets.Handshake(Tickets.AdminConsole, shown, fault)), |d.seats|;
            (k < |d'.seats| && d'.seats[k].entrant.Operator? && d'.seats[k].entrant.adminId == adminId) <==>
            LetsIn(d.desk, shown, fault, adminId)
  {
    var d', k := Tickets.Next(d, Tickets.Handshake(Tickets.AdminConsole, shown, fault)), |d.seats|;
    if k < |d'.seats| {
      Tickets.HandshakeAdmitsIff(d, Tickets.AdminConsole, shown, fault, d'.seats[k].entrant);
    }
    if LetsIn(d.desk, shown, fault, adminId) {
      Tickets.HandshakeAdmitsIff(d, Tickets.AdminConsole, shown, fault,
        Tickets.Operator(adminId, d.desk.issued[shown.value].subRole));
    }
  }

  /** Connecting the newest seat. */
  lemma ConnectsSeat(c: Cluster, i: nat, k: nat, serverTime: int, adminId: string)
    requires Inv(c) && i < |c.nodes| && k !in c.connected
    ensures var n' := Next(c, At(i, Connect(k, serverTime))).nodes[i];
            (k in n'.sockets && n'.sockets[k].adminId == adminId) <==>
            (k < |c.door.seats| && c.door.seats[k].entrant.Operator? && c.door.seats[k].entrant.adminId == adminId)
  {
    assert FromDoor(c, c.nodes[i]);
    if MayConnect(c, k) {
      EntrantHasId(c.door, k);
    }
  }

  /** Seats not yet taken at the door are not connected. */
  ghost predicate ConnectedSeats(c: Cluster) {
    forall k :: k in c.connected ==> k < |c.door.seats|
  }

  lemma {:induction false} ConnectedReachable(nodes: nat, steps: seq<Step>)
    ensures ConnectedSeats(After(nodes, steps))
  {
    if steps == [] {
    } else {
      ConnectedReachable(nodes, steps[..|steps| - 1]);
      var c, step := After(nodes, steps[..|steps| - 1]), steps[|steps| - 1];
      if step.AtDoor? {
        Tickets.SeatsGrow(c.door, step.door);
      }
    }
  }

  /**
   After any run, and whatever revokes of an admin have been published and read, showing a
   ticket at the door and connecting puts a socket of that admin on the node if and only if
   the ticket is live and was issued to that admin: a revoke ends sockets, not tickets.
   */
  lemma ComesInIff(nodes: nat, steps: seq<Step>, i: nat, shown: Option<string>, fault: Tickets.Fault, serverTime: int, adminId: string)
    requires i < nodes
    ensures var c := After(nodes, steps);
            var n := After(nodes, steps + ShowAndConnect(c, i, shown, fault, serverTime)).nodes[i];
            && (forall t :: t in c.door.desk.store ==> t in c.door.desk.issued)
            && ((|c.door.seats| in n.sockets && n.sockets[|c.door.seats|].adminId == adminId) <==>
                  LetsIn(c.door.desk, shown, fault, adminId))
  {
    var c := After(nodes, steps);
    var two := ShowAndConnect(c, i, shown, fault, serverTime);
    Reachable(nodes, steps);
    ConnectedReachable(nodes, steps);
    AfterStep(nodes, steps, two[0]);
    AfterStep(nodes, steps + [two[0]], two[1]);
    assert steps + two == steps + [two[0]] + [two[1]];
    Reachable(nodes, steps + [two[0]]);
    HandshakeLetsIn(c.door, shown, fault, adminId);
    ConnectsSeat(Next(c, two[0]), i, |c.door.seats|, serverTime, adminId);
  }

  function MintRun(adminId: string, ticket: string): seq<Step> {
    [] + [AtDoor(Tickets.Mint(ticket, Tickets.Admin(adminId, Tickets.Support), 30_000))]
  }

  function RevokeRun(adminId: string, ticket: string): seq<Step> {
    MintRun(adminId, ticket) + [PublishRevoke(adminId)]
  }

  /** A ticket is issued, its holder revoked, and the revoke read by the only node. */
  function RevokedRun(adminId: string, ticket: string): seq<Step> {
    RevokeRun(adminId, ticket) + [At(0, ReadRevoke)]
  }

  function MintedDoor(adminId: string, ticket: string): Tickets.State {
    Tickets.Next(Tickets.INIT, Tickets.Mint(ticket, Tickets.Admin(adminId, Tickets.Support), 30_000))
  }

  lemma MintState(adminId: string, ticket: string)
    ensures After(1, MintRun(adminId, ticket)) == Init(1).(door := MintedDoor(adminId, ticket))
  {
    AfterStep(1, [], AtDoor(Tickets.Mint(ticket, Tickets.Admin(adminId, Tickets.Support), 30_000)));
  }

  lemma RevokedState(adminId: string, ticket: string)
    ensures var c := After(1, RevokedRun(adminId, ticket));
            c.revokes == [adminId] && c.nodes[0].revokesRead == 1 && c.door == MintedDoor(adminId, ticket)
  {
    MintState(adminId, ticket);
    AfterStep(1, MintRun(adminId, ticket), PublishRevoke(adminId));
    AfterStep(1, RevokeRun(adminId, ticket), At(0, ReadRevoke));
  }

  /** The admin who was revoked comes in with the ticket issued before. */
  lemma ARevokedAdminComesBack(adminId: string, ticket: string)
    requires adminId != "" && 0 < |ticket| <= 256
    ensures var run := RevokedRun(adminId, ticket);
            var back := run + ShowAndConnect(After(1, run), 0, Some(ticket), Tickets.NoFault, 0);
            && After(1, run).revokes == [adminId] && After(1, run).nodes[0].revokesRead == 1
            && 0 in After(1, back).nodes[0].sockets && After(1, back).nodes[0].sockets[0].adminId == adminId
  {
    RevokedState(adminId, ticket);
    ComesInIff(1, RevokedRun(adminId, ticket), 0, Some(ticket), Tickets.NoFault, 0, adminId);
  }

  /**
   What one flush promises a socket that was granted a filter: the frames added carry each
   position that is its driver's newest in the window and that the filter admits, once, and
   no other.
   */
  ghost predicate FlushPromised(before: Socket, after: Socket, filter: Option<Filter>, window: seq<Position>, emittedAt: int) {
    && before.inbox <= after.inbox
    && after == before.(inbox := after.inbox)
    && IsBatch(after.inbox[|before.inbox|..], emittedAt)
    && forall p :: multiset(Carried(after.inbox[|before.inbox|..]))[p] == if FilterAdmits(filter, p) && IsNewestPing(window, p) then 1 else 0
  }

  lemma FlushKeepsPromise(s: Socket, filter: Option<Filter>, window: seq<Position>, emittedAt: int)
    requires InPlace(s) && s.filterRooms == GrantedRooms(filter)
    ensures FlushPromised(s, s.(inbox := s.inbox + FlushFrames(s.rooms, Values(Window(window)), emittedAt)), filter, window, emittedAt)
  {
    var frames := FlushFrames(s.rooms, Values(Window(window)), emittedAt);
    FlushIsExact(s, Values(Window(window)), emittedAt);
    assert (s.inbox + frames)[|s.inbox|..] == frames;
    forall p ensures multiset(Carried(frames))[p] == if FilterAdmits(filter, p) && IsNewestPing(window, p) then 1 else 0 {
      WantsIffAdmitted(s, p);
      GrantedWants(filter, p);
      WindowCounts(window, p);
    }
  }

  /** Flushing a node keeps that promise for its socket `s`, for the pings read and not yet flushed. */
  ghost predicate FlushDelivers(c: Cluster, n: Node, s: nat, emittedAt: int)
    requires s in n.sockets
  {
    var n' := FlushNode(n, emittedAt);
    && n'.pending == Empty()
    && |n.flushed| <= n.pingsRead <= |c.pings|
    && n.window == c.pings[|n.flushed|..n.pingsRead]
    && s in n.heard && FlushPromised(n.sockets[s], n'.sockets[s], n.heard[s].filter, n.window, emittedAt)
  }

  lemma FlushDeliversIn(c: Cluster, n: Node, s: nat, emittedAt: int)
    requires NodeInv(n) && LogInv(c, n) && s in n.sockets
    ensures FlushDelivers(c, n, s, emittedAt)
  {
    assert SeatInv(n, s);
    FlushKeepsPromise(n.sockets[s], n.heard[s].filter, n.window, emittedAt);
    assert n.window == (n.flushed + n.window)[|n.flushed|..];
  }

  lemma FlushTouchesOne(c: Cluster, i: nat, emittedAt: int)
    requires i < |c.nodes|
    ensures Next(c, At(i, Flush(emittedAt))) == c.(nodes := c.nodes[i := FlushNode(c.nodes[i], emittedAt)])
  {
  }

  /** That holds in every reachable state, for every node and every operator on it; nothing else is touched. */
  lemma FlushDeliversTheWindow(nodes: nat, steps: seq<Step>, i: nat, s: nat, emittedAt: int)
    requires i < nodes
    requires s in After(nodes, steps).nodes[i].sockets
    ensures var c := After(nodes, steps);
            && FlushDelivers(c, c.nodes[i], s, emittedAt)
            && Next(c, At(i, Flush(emittedAt))) == c.(nodes := c.nodes[i := FlushNode(c.nodes[i], emittedAt)])
  {
    Reachable(nodes, steps);
    var c := After(nodes, steps);
    FlushTouchesOne(c, i, emittedAt);
    FlushDeliversIn(c, c.nodes[i], s, emittedAt);
  }
}
