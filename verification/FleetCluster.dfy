/**
 The fleet fan-out over a cluster: any number of nodes, each with its own console sockets
 and its own pace through the pings and the booking events, and one door where tickets are
 redeemed; then what each console shows. Every step is one of the operations proved in
 `FleetRelay`, `Console` and `Tickets`.
 */
module FleetCluster {
  import opened Options
  import opened Slices
  import opened Batcher
  import opened FleetRelay
  import opened Positions
  import opened Console
  import Tickets

  /** What happened at a node while a socket was there: an event was read, or published pings were flushed. */
  datatype Entry = Event(e: FleetEvent) | Round(from: nat, to: nat, at: int)

  /** The past of a socket: where its node was in the two channels when it connected, and what happened since. */
  datatype Past = Past(serverTime: int, eventsFrom: nat, pingsFrom: nat, entries: seq<Entry>)

  /**
   `window` is what the batcher holds, as the history it refines; `flushedTo` is how far the
   pings had been read at the last flush. `past` records history; no step depends on it.
   */
  datatype Node = Node(
    sockets: Sockets, window: seq<FleetPing>, pingsRead: nat, flushedTo: nat, eventsRead: nat, past: map<nat, Past>)

  /** The two channels, the door, the seats whose connection has been handled, and the nodes. */
  datatype Cluster = Cluster(
    pings: seq<Raw>, events: seq<FleetEvent>, door: Tickets.State, connected: set<nat>, nodes: seq<Node>)

  datatype Step =
    | PublishPing(raw: Raw)
    | PublishEvent(e: FleetEvent)
    | AtDoor(door: Tickets.Step)
    | At(n: nat, local: LocalStep)

  datatype LocalStep =
    | ReadPing
    | ReadEvent
    | Flush(emittedAt: int)
    | Connect(id: nat, serverTime: int)
    | Disconnect(id: nat)

  const NEW_NODE := Node(map[], [], 0, 0, 0, map[])

  function Init(n: nat): Cluster {
    Cluster([], [], Tickets.INIT, {}, seq(n, i => NEW_NODE))
  }

  // ---- the steps ------------------------------------------------------------------------------

  function Accepted(raw: Raw): seq<FleetPing> {
    if IsPing(raw) then [AsPing(raw)] else []
  }

  function HearPing(n: Node, raw: Raw): Node {
    n.(window := n.window + Accepted(raw), pingsRead := n.pingsRead + 1)
  }

  function Entered(past: map<nat, Past>, entry: Entry): map<nat, Past> {
    map s | s in past :: past[s].(entries := past[s].entries + [entry])
  }

  function HearEvent(n: Node, e: FleetEvent): Node {
    n.(sockets := Noted(n.sockets, e), eventsRead := n.eventsRead + 1, past := Entered(n.past, Event(e)))
  }

  function FlushNode(n: Node, emittedAt: int): Node {
    n.(sockets := Flushed(n.sockets, n.window, emittedAt), window := [], flushedTo := n.pingsRead,
       past := Entered(n.past, Round(n.flushedTo, n.pingsRead, emittedAt)))
  }

  function ConnectTo(n: Node, id: nat, fleetId: string, serverTime: int): Node {
    n.(sockets := Joined(n.sockets, id, Some(fleetId), serverTime),
       past := n.past[id := Past(serverTime, n.eventsRead, n.flushedTo, [])])
  }

  /** A console was let in at the door and its connection is still to be handled. */
  predicate MayConnect(c: Cluster, id: nat) {
    id < |c.door.seats| && c.door.seats[id].entrant.Tenant? && id !in c.connected
  }

  /** One node's step. A step that is not possible leaves the node alone. */
  function Local(c: Cluster, n: Node, step: LocalStep): Node {
    match step
    case ReadPing => if n.pingsRead < |c.pings| then HearPing(n, c.pings[n.pingsRead]) else n
    case ReadEvent => if n.eventsRead < |c.events| then HearEvent(n, c.events[n.eventsRead]) else n
    case Flush(at) => FlushNode(n, at)
    case Connect(id, t) => if MayConnect(c, id) then ConnectTo(n, id, c.door.seats[id].entrant.fleetId, t) else n
    case Disconnect(id) => n.(sockets := n.sockets - {id})
  }

  function Next(c: Cluster, step: Step): Cluster {
    match step
    case PublishPing(raw) => c.(pings := c.pings + [raw])
    case PublishEvent(e) => c.(events := c.events + [e])
    case AtDoor(step) => c.(door := Tickets.Next(c.door, step))
    case At(n, local) =>
      if n >= |c.nodes| then c
      else c.(nodes := c.nodes[n := Local(c, c.nodes[n], local)],
              connected := if local.Connect? && MayConnect(c, local.id) then c.connected + {local.id} else c.connected)
  }

  /** Any run, from any number of fresh nodes. */
  function After(n: nat, steps: seq<Step>): (c: Cluster)
    ensures |c.nodes| == n
  {
    if steps == [] then Init(n) else Next(After(n, steps[..|steps| - 1]), steps[|steps| - 1])
  }

  // ---- what a past owes a console -----------------------------------------------------------------

  /** The well-formed pings of a stretch of the channel. */
  function WellFormed(raws: seq<Raw>): seq<FleetPing> {
    if raws == [] then [] else WellFormed(raws[..|raws| - 1]) + Accepted(raws[|raws| - 1])
  }

  /** The window a flush of these published pings had. */
  function WindowOf(pings: seq<Raw>, from: nat, to: nat): seq<FleetPing> {
    if from <= to <= |pings| then WellFormed(pings[from..to]) else []
  }

  function EntryFrames(pings: seq<Raw>, fleetId: string, entry: Entry): seq<Frame> {
    match entry
    case Event(e) => EventFrames(e, fleetId)
    case Round(from, to, at) => FrameFor(WindowOf(pings, from, to), fleetId, at)
  }

  function Parts(pings: seq<Raw>, fleetId: string, entries: seq<Entry>): seq<seq<Frame>> {
    Each(entry => EntryFrames(pings, fleetId, entry), entries)
  }

  /** The frames a past owes, in order. */
  function Replay(pings: seq<Raw>, fleetId: string, entries: seq<Entry>): seq<Frame> {
    Flat(Parts(pings, fleetId, entries))
  }

  function EventsOf(entries: seq<Entry>): seq<FleetEvent> {
    if entries == [] then []
    else
      var last := entries[|entries| - 1];
      EventsOf(entries[..|entries| - 1]) + if last.Event? then [last.e] else []
  }

  /** The windows that were flushed, as stretches of what was published. */
  function WindowsOf(pings: seq<Raw>, entries: seq<Entry>): seq<seq<FleetPing>> {
    if entries == [] then []
    else
      var last := entries[|entries| - 1];
      WindowsOf(pings, entries[..|entries| - 1]) + if last.Round? then [WindowOf(pings, last.from, last.to)] else []
  }

  /** The flushes cover the pings between two points, without gap or overlap. */
  ghost predicate Tiles(entries: seq<Entry>, from: nat, to: nat) {
    if entries == [] then from == to
    else
      var before, last := entries[..|entries| - 1], entries[|entries| - 1];
      if last.Event? then Tiles(before, from, to)
      else last.from <= last.to == to && Tiles(before, from, last.from)
  }

  /** No flush covers more than was read by then. */
  lemma {:induction false} TilesBound(entries: seq<Entry>, from: nat, to: nat, i: nat)
    requires Tiles(entries, from, to) && i < |entries| && entries[i].Round?
    ensures entries[i].from <= entries[i].to <= to
  {
    var n := |entries| - 1;
    if i == n {
    } else {
      TilesBound(entries[..n], from, if entries[n].Event? then to else entries[n].from, i);
    }
  }

  lemma EntryStays(pings: seq<Raw>, pings': seq<Raw>, fleetId: string, entry: Entry)
    requires pings <= pings' && (entry.Round? ==> entry.from <= entry.to <= |pings|)
    ensures EntryFrames(pings', fleetId, entry) == EntryFrames(pings, fleetId, entry)
  {
    if entry.Round? {
      SliceOfPrefix(pings, pings', entry.from, entry.to);
    }
  }

  /** What a past owes does not change when more is published. */
  lemma ReplayStays(pings: seq<Raw>, pings': seq<Raw>, fleetId: string, entries: seq<Entry>, from: nat, to: nat)
    requires Tiles(entries, from, to) && to <= |pings| && pings <= pings'
    ensures Replay(pings', fleetId, entries) == Replay(pings, fleetId, entries)
  {
    forall i | 0 <= i < |entries|
      ensures Parts(pings', fleetId, entries)[i] == Parts(pings, fleetId, entries)[i]
    {
      if entries[i].Round? {
        TilesBound(entries, from, to, i);
      }
      EntryStays(pings, pings', fleetId, entries[i]);
    }
    assert Parts(pings', fleetId, entries) == Parts(pings, fleetId, entries);
  }

  lemma ReplayAdds(pings: seq<Raw>, fleetId: string, entries: seq<Entry>, entry: Entry)
    ensures Replay(pings, fleetId, entries + [entry])
         == Replay(pings, fleetId, entries) + EntryFrames(pings, fleetId, entry)
  {
    PartsSplit(pings, fleetId, entries, [entry]);
    assert Parts(pings, fleetId, [entry]) == [EntryFrames(pings, fleetId, entry)];
    FlatAdds(Parts(pings, fleetId, entries), EntryFrames(pings, fleetId, entry));
  }

  lemma PartsSplit(pings: seq<Raw>, fleetId: string, a: seq<Entry>, b: seq<Entry>)
    ensures Parts(pings, fleetId, a + b) == Parts(pings, fleetId, a) + Parts(pings, fleetId, b)
  {
    EachOfConcat(entry => EntryFrames(pings, fleetId, entry), a, b);
  }

  lemma ReplaySplits(pings: seq<Raw>, fleetId: string, a: seq<Entry>, b: seq<Entry>)
    ensures Replay(pings, fleetId, a + b) == Replay(pings, fleetId, a) + Replay(pings, fleetId, b)
  {
    PartsSplit(pings, fleetId, a, b);
    FlatSplits(Parts(pings, fleetId, a), Parts(pings, fleetId, b));
  }

  lemma EventAdds(entries: seq<Entry>, e: FleetEvent, from: nat, to: nat)
    requires Tiles(entries, from, to)
    ensures Tiles(entries + [Event(e)], from, to) && EventsOf(entries + [Event(e)]) == EventsOf(entries) + [e]
  {
    assert (entries + [Event(e)])[..|entries + [Event(e)]| - 1] == entries;
  }

  lemma RoundAdds(entries: seq<Entry>, from: nat, to: nat, end: nat, at: int)
    requires Tiles(entries, from, to) && to <= end
    ensures Tiles(entries + [Round(to, end, at)], from, end)
    ensures EventsOf(entries + [Round(to, end, at)]) == EventsOf(entries)
  {
    assert (entries + [Round(to, end, at)])[..|entries + [Round(to, end, at)]| - 1] == entries;
    assert EventsOf(entries) + [] == EventsOf(entries);
  }

  /** What a past owes, behind the greeting. */
  function Inbox(pings: seq<Raw>, fleetId: string, past: Past): seq<Frame> {
    [Ready(fleetId, past.serverTime)] + Replay(pings, fleetId, past.entries)
  }

  lemma InboxAdds(pings: seq<Raw>, fleetId: string, past: Past, entry: Entry)
    ensures Inbox(pings, fleetId, past.(entries := past.entries + [entry]))
         == Inbox(pings, fleetId, past) + EntryFrames(pings, fleetId, entry)
  {
    ReplayAdds(pings, fleetId, past.entries, entry);
    Associates([Ready(fleetId, past.serverTime)], Replay(pings, fleetId, past.entries), EntryFrames(pings, fleetId, entry));
  }

  /** An accepted ping joins the window, a malformed one does not. */
  lemma WindowGrows(pings: seq<Raw>, from: nat, to: nat)
    requires from <= to < |pings|
    ensures WindowOf(pings, from, to + 1) == WindowOf(pings, from, to) + Accepted(pings[to])
  {
    SliceGrows(pings, from, to);
    assert (pings[from..to] + [pings[to]])[..to - from] == pings[from..to];
  }

  // ---- what a node keeps ----------------------------------------------------------------------------

  /** A socket's inbox is its greeting and what its past owes it; its past is what its node read and flushed. */
  ghost predicate SeatInv(c: Cluster, n: Node, s: nat)
    requires s in n.sockets
  {
    s in n.past && PastInv(c, n, n.sockets[s], n.past[s])
  }

  ghost predicate PastInv(c: Cluster, n: Node, socket: Socket, past: Past) {
    && socket.inbox == Inbox(c.pings, socket.fleetId, past)
    && Tiles(past.entries, past.pingsFrom, n.flushedTo)
    && past.eventsFrom <= n.eventsRead <= |c.events|
    && EventsOf(past.entries) == c.events[past.eventsFrom..n.eventsRead]
  }

  ghost predicate LogInv(c: Cluster, n: Node) {
    && n.flushedTo <= n.pingsRead <= |c.pings|
    && n.eventsRead <= |c.events|
    && n.window == WindowOf(c.pings, n.flushedTo, n.pingsRead)
  }

  ghost predicate NodeInv(c: Cluster, n: Node) {
    LogInv(c, n) && forall s :: s in n.sockets ==> SeatInv(c, n, s)
  }

  lemma HearPingKeeps(c: Cluster, n: Node)
    requires NodeInv(c, n) && n.pingsRead < |c.pings|
    ensures NodeInv(c, HearPing(n, c.pings[n.pingsRead]))
  {
    var n' := HearPing(n, c.pings[n.pingsRead]);
    WindowGrows(c.pings, n.flushedTo, n.pingsRead);
    forall s | s in n'.sockets ensures SeatInv(c, n', s) {
      assert SeatInv(c, n, s);
    }
  }

  lemma HearEventSeat(c: Cluster, n: Node, s: nat)
    requires LogInv(c, n) && n.eventsRead < |c.events| && s in n.sockets && SeatInv(c, n, s)
    ensures SeatInv(c, HearEvent(n, c.events[n.eventsRead]), s)
  {
    var e, socket, past := c.events[n.eventsRead], n.sockets[s], n.past[s];
    InboxAdds(c.pings, socket.fleetId, past, Event(e));
    EventAdds(past.entries, e, past.pingsFrom, n.flushedTo);
    SliceGrows(c.events, past.eventsFrom, n.eventsRead);
  }

  lemma HearEventKeeps(c: Cluster, n: Node)
    requires NodeInv(c, n) && n.eventsRead < |c.events|
    ensures NodeInv(c, HearEvent(n, c.events[n.eventsRead]))
  {
    var n' := HearEvent(n, c.events[n.eventsRead]);
    forall s | s in n'.sockets ensures SeatInv(c, n', s) {
      HearEventSeat(c, n, s);
    }
  }

  lemma FlushSeat(c: Cluster, n: Node, emittedAt: int, s: nat)
    requires LogInv(c, n) && s in n.sockets && SeatInv(c, n, s)
    ensures SeatInv(c, FlushNode(n, emittedAt), s)
  {
    var socket, past := n.sockets[s], n.past[s];
    InboxAdds(c.pings, socket.fleetId, past, Round(n.flushedTo, n.pingsRead, emittedAt));
    RoundAdds(past.entries, past.pingsFrom, n.flushedTo, n.pingsRead, emittedAt);
  }

  lemma FlushKeeps(c: Cluster, n: Node, emittedAt: int)
    requires NodeInv(c, n)
    ensures NodeInv(c, FlushNode(n, emittedAt))
  {
    var n' := FlushNode(n, emittedAt);
    assert c.pings[n.pingsRead..n.pingsRead] == [];
    forall s | s in n'.sockets ensures SeatInv(c, n', s) {
      FlushSeat(c, n, emittedAt, s);
    }
  }

  lemma ConnectKeeps(c: Cluster, n: Node, id: nat, fleetId: string, serverTime: int)
    requires NodeInv(c, n) && id !in n.sockets && fleetId != ""
    ensures NodeInv(c, ConnectTo(n, id, fleetId, serverTime))
  {
    var n' := ConnectTo(n, id, fleetId, serverTime);
    forall s | s in n'.sockets ensures SeatInv(c, n', s) {
      if s == id {
        assert c.events[n.eventsRead..n.eventsRead] == [];
      } else {
        assert SeatInv(c, n, s);
      }
    }
  }

  lemma DisconnectKeeps(c: Cluster, n: Node, id: nat)
    requires NodeInv(c, n)
    ensures NodeInv(c, n.(sockets := n.sockets - {id}))
  {
    var n' := n.(sockets := n.sockets - {id});
    forall s | s in n'.sockets ensures SeatInv(c, n', s) {
      assert SeatInv(c, n, s);
    }
  }

  lemma LocalKeeps(c: Cluster, n: Node, step: LocalStep)
    requires NodeInv(c, n)
    requires step.Connect? && MayConnect(c, step.id) ==>
               step.id !in n.sockets && c.door.seats[step.id].entrant.fleetId != ""
    ensures NodeInv(c, Local(c, n, step))
  {
    match step
    case ReadPing => if n.pingsRead < |c.pings| { HearPingKeeps(c, n); }
    case ReadEvent => if n.eventsRead < |c.events| { HearEventKeeps(c, n); }
    case Flush(at) => FlushKeeps(c, n, at);
    case Connect(id, t) => if MayConnect(c, id) { ConnectKeeps(c, n, id, c.door.seats[id].entrant.fleetId, t); }
    case Disconnect(id) => DisconnectKeeps(c, n, id);
  }

  lemma SeatStays(c: Cluster, c': Cluster, n: Node, s: nat)
    requires c.pings <= c'.pings && c.events <= c'.events
    requires LogInv(c, n) && s in n.sockets && SeatInv(c, n, s)
    ensures SeatInv(c', n, s)
  {
    var past := n.past[s];
    ReplayStays(c.pings, c'.pings, n.sockets[s].fleetId, past.entries, past.pingsFrom, n.flushedTo);
    SliceOfPrefix(c.events, c'.events, past.eventsFrom, n.eventsRead);
  }

  /** Publishing more changes nothing a node has already read. */
  lemma NodeStays(c: Cluster, c': Cluster, n: Node)
    requires c.pings <= c'.pings && c.events <= c'.events && NodeInv(c, n)
    ensures NodeInv(c', n)
  {
    SliceOfPrefix(c.pings, c'.pings, n.flushedTo, n.pingsRead);
    forall s | s in n.sockets ensures SeatInv(c', n, s) {
      SeatStays(c, c', n, s);
    }
  }

  // ---- who is there ---------------------------------------------------------------------------------

  /** The sockets of a node are connected seats, each of the tenant that was let in. */
  ghost predicate FromDoor(c: Cluster, n: Node) {
    forall s :: s in n.sockets ==>
      && s in c.connected && s < |c.door.seats| && c.door.seats[s].entrant == Tickets.Tenant(n.sockets[s].fleetId)
  }

  ghost predicate DoorInv(c: Cluster) {
    && Tickets.Inv(c.door)
    && forall i :: 0 <= i < |c.nodes| ==> FromDoor(c, c.nodes[i])
  }

  lemma LocalSockets(c: Cluster, n: Node, step: LocalStep)
    ensures forall s :: s in Local(c, n, step).sockets ==>
              || (s in n.sockets && Local(c, n, step).sockets[s].fleetId == n.sockets[s].fleetId)
              || (&& step.Connect? && step.id == s && MayConnect(c, s)
                  && Local(c, n, step).sockets[s].fleetId == c.door.seats[s].entrant.fleetId)
  {
  }

  lemma DoorStep(c: Cluster, step: Step)
    requires DoorInv(c)
    ensures DoorInv(Next(c, step))
  {
    var c' := Next(c, step);
    if step.AtDoor? {
      Tickets.KeptBy(c.door, step.door);
      Tickets.SeatsGrow(c.door, step.door);
    }
    forall i | 0 <= i < |c'.nodes| ensures FromDoor(c', c'.nodes[i]) {
      assert FromDoor(c, c.nodes[i]);
      if step.At? && step.n == i {
        LocalSockets(c, c.nodes[i], step.local);
      }
    }
  }

  ghost predicate OneNodeEach(nodes: seq<Node>) {
    forall i, j, s :: 0 <= i < j < |nodes| && s in nodes[i].sockets ==> s !in nodes[j].sockets
  }

  lemma NextPlaces(c: Cluster, step: Step)
    requires OneNodeEach(c.nodes) && DoorInv(c)
    ensures OneNodeEach(Next(c, step).nodes)
  {
    if step.At? && step.n < |c.nodes| {
      LocalSockets(c, c.nodes[step.n], step.local);
      forall j, s | 0 <= j < |c.nodes| && s in c.nodes[j].sockets ensures s in c.connected {
        assert FromDoor(c, c.nodes[j]);
      }
    }
  }

  // ---- every run ------------------------------------------------------------------------------------

  ghost predicate Inv(c: Cluster) {
    && (forall i :: 0 <= i < |c.nodes| ==> NodeInv(c, c.nodes[i]))
    && OneNodeEach(c.nodes)
    && DoorInv(c)
  }

  lemma LocalInv(c: Cluster, i: nat, step: LocalStep)
    requires Inv(c) && i < |c.nodes|
    ensures NodeInv(c, Local(c, c.nodes[i], step))
  {
    assert FromDoor(c, c.nodes[i]);
    if step.Connect? && MayConnect(c, step.id) {
      assert Tickets.Admitted(c.door.desk, c.door.seats[step.id]);
    }
    LocalKeeps(c, c.nodes[i], step);
  }

  lemma NextKeeps(c: Cluster, step: Step)
    requires Inv(c)
    ensures Inv(Next(c, step))
  {
    var c' := Next(c, step);
    NextPlaces(c, step);
    DoorStep(c, step);
    forall i | 0 <= i < |c'.nodes| ensures NodeInv(c', c'.nodes[i]) {
      if step.At? && step.n == i {
        LocalInv(c, i, step.local);
      }
      assert NodeInv(c, c'.nodes[i]);
      NodeStays(c, c', c'.nodes[i]);
    }
  }

  lemma {:induction false} Reachable(nodes: nat, steps: seq<Step>)
    ensures Inv(After(nodes, steps))
  {
    if steps == [] {
    } else {
      Reachable(nodes, steps[..|steps| - 1]);
      NextKeeps(After(nodes, steps[..|steps| - 1]), steps[|steps| - 1]);
    }
  }

  lemma NextNode(c: Cluster, step: Step, i: nat)
    requires i < |c.nodes|
    ensures i < |Next(c, step).nodes|
    ensures Next(c, step).nodes[i] == if step.At? && step.n == i then Local(c, c.nodes[i], step.local) else c.nodes[i]
  {
  }

  lemma LeavesIn(c: Cluster, i: nat, s: nat, step: Step)
    requires i < |c.nodes| && s in c.nodes[i].sockets && s in c.connected
    ensures i < |Next(c, step).nodes|
    ensures s !in Next(c, step).nodes[i].sockets <==> step == At(i, Disconnect(s))
  {
    NextNode(c, step, i);
    if step.At? && step.n == i {
      LocalStays(c, c.nodes[i], step.local, s);
    }
  }

  /** In every reachable state, nothing but its own disconnect ends a console's socket. */
  lemma LeavesIff(nodes: nat, steps: seq<Step>, i: nat, s: nat, step: Step)
    requires i < nodes && s in After(nodes, steps).nodes[i].sockets
    ensures s !in Next(After(nodes, steps), step).nodes[i].sockets <==> step == At(i, Disconnect(s))
  {
    Reachable(nodes, steps);
    assert FromDoor(After(nodes, steps), After(nodes, steps).nodes[i]);
    LeavesIn(After(nodes, steps), i, s, step);
  }

  lemma LocalStays(c: Cluster, n: Node, step: LocalStep, s: nat)
    requires s in n.sockets && (step.Connect? ==> !MayConnect(c, s))
    ensures s !in Local(c, n, step).sockets <==> step == Disconnect(s)
  {
  }

  // ---- what a console shows -------------------------------------------------------------------------

  lemma ShownMore(ms: seq<Marker>, windows: seq<seq<FleetPing>>, w: seq<FleetPing>, frames: seq<Frame>, fleetId: string, at: int)
    requires Applied(ms, frames) == Shown(ms, windows, fleetId)
    ensures Applied(ms, frames + FrameFor(w, fleetId, at)) == Shown(ms, windows + [w], fleetId)
  {
    AppliedOne(ms, frames, FrameFor(w, fleetId, at));
    assert (windows + [w])[..|windows + [w]| - 1] == windows;
  }

  lemma EventShowsNothing(ms: seq<Marker>, frames: seq<Frame>, e: FleetEvent, fleetId: string)
    ensures Applied(ms, frames + EventFrames(e, fleetId)) == Applied(ms, frames)
  {
    AppliedOne(ms, frames, EventFrames(e, fleetId));
  }

  lemma WindowsAdd(pings: seq<Raw>, entries: seq<Entry>, entry: Entry)
    ensures WindowsOf(pings, entries + [entry])
         == if entry.Event? then WindowsOf(pings, entries) else WindowsOf(pings, entries) + [WindowOf(pings, entry.from, entry.to)]
  {
    assert (entries + [entry])[..|entries + [entry]| - 1] == entries;
    assert WindowsOf(pings, entries) + [] == WindowsOf(pings, entries);
  }

  lemma ReplayShowsMore(pings: seq<Raw>, fleetId: string, entries: seq<Entry>, entry: Entry, ms: seq<Marker>)
    requires Applied(ms, Replay(pings, fleetId, entries)) == Shown(ms, WindowsOf(pings, entries), fleetId)
    ensures Applied(ms, Replay(pings, fleetId, entries + [entry])) == Shown(ms, WindowsOf(pings, entries + [entry]), fleetId)
  {
    var frames := Replay(pings, fleetId, entries);
    ReplayAdds(pings, fleetId, entries, entry);
    WindowsAdd(pings, entries, entry);
    match entry
    case Event(e) => EventShowsNothing(ms, frames, e, fleetId);
    case Round(from, to, at) => ShownMore(ms, WindowsOf(pings, entries), WindowOf(pings, from, to), frames, fleetId, at);
  }

  /** The frames of a past, applied to any snapshot, show what its windows show. */
  lemma {:induction false} ReplayShows(pings: seq<Raw>, fleetId: string, entries: seq<Entry>, ms: seq<Marker>)
    ensures Applied(ms, Replay(pings, fleetId, entries)) == Shown(ms, WindowsOf(pings, entries), fleetId)
    decreases |entries|
  {
    if entries == [] {
    } else {
      var n := |entries| - 1;
      ReplayShows(pings, fleetId, entries[..n], ms);
      ReplayShowsMore(pings, fleetId, entries[..n], entries[n], ms);
      assert entries == entries[..n] + [entries[n]];
    }
  }

  /**
   What is promised to a console: its ticket was issued to its own tenant, and no other seat
   showed it; its inbox is its greeting and then, in order, one frame for each event its node
   read since it connected that is for its fleet and one for each flush in which its fleet
   pinged, and nothing else; and the flushed windows are successive stretches of what was
   published.
   */
  ghost predicate Promised(c: Cluster, n: Node, s: nat)
    requires s in n.sockets
  {
    && s in n.past && s < |c.door.seats|
    && var socket, past, ticket := n.sockets[s], n.past[s], c.door.seats[s].ticket;
    && ticket in c.door.desk.issued && ticket !in c.door.desk.store
    && c.door.desk.issued[ticket].Fleet? && c.door.desk.issued[ticket].fleetId == socket.fleetId
    && (forall u :: 0 <= u < |c.door.seats| && u != s ==> c.door.seats[u].ticket != ticket)
    && socket.inbox == Inbox(c.pings, socket.fleetId, past)
    && past.eventsFrom <= n.eventsRead <= |c.events|
    && EventsOf(past.entries) == c.events[past.eventsFrom..n.eventsRead]
    && n.flushedTo <= n.pingsRead <= |c.pings|
    && Tiles(past.entries, past.pingsFrom, n.flushedTo)
  }

  lemma PromisedIn(c: Cluster, n: Node, s: nat)
    requires NodeInv(c, n) && FromDoor(c, n) && Tickets.Inv(c.door) && s in n.sockets
    ensures Promised(c, n, s)
  {
    assert SeatInv(c, n, s);
    assert Tickets.Admitted(c.door.desk, c.door.seats[s]);
  }

  /** In every reachable state of any cluster, every console has what it is promised, on one node only. */
  lemma EveryFleetSocket(nodes: nat, steps: seq<Step>, i: nat, s: nat)
    requires i < nodes
    requires s in After(nodes, steps).nodes[i].sockets
    ensures Promised(After(nodes, steps), After(nodes, steps).nodes[i], s)
    ensures forall j :: 0 <= j < nodes && j != i ==> s !in After(nodes, steps).nodes[j].sockets
  {
    Reachable(nodes, steps);
    PromisedIn(After(nodes, steps), After(nodes, steps).nodes[i], s);
  }

  /** The console loaded a snapshot after the first `k` things that happened, and applies the frames from there. */
  ghost predicate ShowsPublished(c: Cluster, n: Node, s: nat, ms: seq<Marker>, k: nat)
    requires s in n.sockets && s in n.past && k <= |n.past[s].entries|
  {
    var f, entries := n.sockets[s].fleetId, n.past[s].entries;
    var missed, got := Replay(c.pings, f, entries[..k]), Replay(c.pings, f, entries[k..]);
    && n.sockets[s].inbox == [Ready(f, n.past[s].serverTime)] + missed + got
    && AllShowNewest(ms, Applied(ms, got), WindowsOf(c.pings, entries[k..]), f)
  }

  lemma ShowsIn(c: Cluster, n: Node, s: nat, ms: seq<Marker>, k: nat)
    requires s in n.sockets && SeatInv(c, n, s) && k <= |n.past[s].entries| && OneMarkerPerTruck(ms)
    ensures ShowsPublished(c, n, s, ms, k)
  {
    var f, entries := n.sockets[s].fleetId, n.past[s].entries;
    var missed, got := Replay(c.pings, f, entries[..k]), Replay(c.pings, f, entries[k..]);
    assert entries == entries[..k] + entries[k..];
    ReplaySplits(c.pings, f, entries[..k], entries[k..]);
    Associates([Ready(f, n.past[s].serverTime)], missed, got);
    ReplayShows(c.pings, f, entries[k..], ms);
    EndToEnd(ms, WindowsOf(c.pings, entries[k..]), f);
  }

  /**
   In every reachable state, a console that loaded a snapshot at any point and has applied its
   frames since shows, for every listed truck, the newest ping of the last flushed stretch of
   the published pings in which its fleet's truck pinged, and its snapshot where there is none.
   */
  lemma EveryConsoleShowsPublished(nodes: nat, steps: seq<Step>, i: nat, s: nat, ms: seq<Marker>, k: nat)
    requires i < nodes && OneMarkerPerTruck(ms)
    requires s in After(nodes, steps).nodes[i].sockets
    requires s in After(nodes, steps).nodes[i].past ==> k <= |After(nodes, steps).nodes[i].past[s].entries|
    ensures s in After(nodes, steps).nodes[i].past
    ensures ShowsPublished(After(nodes, steps), After(nodes, steps).nodes[i], s, ms, k)
  {
    Reachable(nodes, steps);
    var c := After(nodes, steps);
    assert NodeInv(c, c.nodes[i]) && SeatInv(c, c.nodes[i], s);
    ShowsIn(c, c.nodes[i], s, ms, k);
  }
}
