/**
 The two metrics broadcasters, on any number of nodes that read one channel: a domain
 event re-arms a debounce timer per key, a fired timer asks for a `SET NX PX` lock, the
 winner recomputes and publishes. The fleet broadcaster keys by fleet and publishes once,
 on another channel; the admin one has a single key, an extra periodic tick, and publishes
 twice, with an await in between, on the very channel it reads. A step is the code of one
 node between two awaits.
 */
module Broadcasters {
  import opened Options

  /** `debounce` is both the timer's delay and the lock's life. */
  datatype Broadcaster = FleetMetrics(debounce: nat) | AdminOps(debounce: nat)

  /** A message on the channel, as far as a broadcaster looks into it; a missing kind is "". */
  datatype Wire = NotAnObject | Object(kind: string, fleetId: Option<string>)

  const OPS_KEY := "ops"

  /** The key whose recompute a message schedules, if it schedules one. */
  function Schedules(c: Broadcaster, w: Wire): Option<string> {
    if w.NotAnObject? then None
    else match c
      case FleetMetrics(_) => if w.fleetId.Some? && w.fleetId.value != "" then w.fleetId else None
      case AdminOps(_) => if w.kind == "booking_status" || w.kind == "booking_created" then Some(OPS_KEY) else None
  }

  /** How often one recompute publishes. */
  function Publishes(c: Broadcaster): nat {
    if c.FleetMetrics? then 1 else 2
  }

  /** What a recompute's publish adds to the channel its broadcaster reads. */
  function Output(c: Broadcaster, index: nat): seq<Wire> {
    if c.FleetMetrics? then [] else [Object(if index == 0 then "ops_metrics" else "ops_badges", None)]
  }

  /** `read` records when the message that armed it was read. */
  datatype Timer = Timer(key: string, due: int, read: int)

  /** A scheduling message a node handled: its key, and when. */
  datatype Read = Read(key: string, at: int)

  /**
   `read` is how far the node is in the channel; `armed` the runtime's live timers, `pending`
   the service's own map of them. `handled`, `attempts` and `ticks` record the past.
   */
  datatype Node = Node(
    destroyed: bool, read: nat, pending: map<string, nat>, armed: map<nat, Timer>, nextTimer: nat,
    handled: seq<Read>, attempts: nat, ticks: nat)

  /** `Unasked` is a recompute whose request for the lock failed. */
  datatype Phase = Asking | Unasked | Computing | Published(n: nat) | Over

  /** A recompute; `read` is its timer's, and absent when a tick started it. */
  datatype Task = Task(node: nat, key: string, read: Option<int>, phase: Phase)

  datatype Grant = Grant(key: string, at: int)

  /** One issued publish: the how-manieth of its recompute, and whether its node was already destroyed. */
  datatype Issue = Issue(key: string, index: nat, late: bool)

  /** `channel` is everything published on the channel, by anyone; `posted` the part the rest of the system published. */
  datatype State = State(
    now: int, locks: map<string, int>, channel: seq<Wire>, posted: seq<Wire>,
    nodes: seq<Node>, tasks: seq<Task>, grants: seq<Grant>, issued: seq<Issue>)

  datatype Step =
    | Wait(ms: nat)
    | Post(w: Wire)
    | Receive(n: nat)
    | Fire(n: nat, timer: nat)
    | Tick(n: nat)
    | SetNx(t: nat)
    | Computed(t: nat)
    | PublishNext(t: nat)
    | Fail(t: nat)
    | Destroy(n: nat)

  const NEW_NODE := Node(false, 0, map[], map[], 0, [], 0, 0)

  function Init(nodes: nat): State {
    State(0, map[], [], [], seq(nodes, i => NEW_NODE), [], [], [])
  }

  // ---- one node ---------------------------------------------------------------------------

  /** A domain event clears the key's timer, if any, and arms a new one. */
  function Schedule(c: Broadcaster, n: Node, now: int, key: string): Node {
    var others := if key in n.pending then n.armed - {n.pending[key]} else n.armed;
    n.(armed := others[n.nextTimer := Timer(key, now + c.debounce, now)],
       pending := n.pending[key := n.nextTimer],
       nextTimer := n.nextTimer + 1,
       handled := n.handled + [Read(key, now)])
  }

  /** Handling one message. */
  function Handle(c: Broadcaster, n: Node, now: int, w: Wire): Node {
    var key := Schedules(c, w);
    if n.destroyed || key.None? then n else Schedule(c, n, now, key.value)
  }

  function Local(c: Broadcaster, s: State, n: Node, step: Step): Node {
    match step
    case Receive(_) =>
      if n.read >= |s.channel| then n else Handle(c, n, s.now, s.channel[n.read]).(read := n.read + 1)
    case Fire(_, timer) =>
      if timer !in n.armed || s.now < n.armed[timer].due then n
      else n.(armed := n.armed - {timer}, pending := n.pending - {n.armed[timer].key}, attempts := n.attempts + 1)
    case Tick(_) =>
      if n.destroyed || c.FleetMetrics? then n else n.(ticks := n.ticks + 1, attempts := n.attempts + 1)
    case Destroy(_) => n.(destroyed := true, pending := map[], armed := map[])
    case _ => n
  }

  /** The recompute a node's step starts, past the check that the node is not destroyed. */
  function Started(c: Broadcaster, now: int, n: Node, i: nat, step: Step): seq<Task> {
    match step
    case Fire(_, timer) =>
      if timer in n.armed && now >= n.armed[timer].due && !n.destroyed then
        [Task(i, n.armed[timer].key, Some(n.armed[timer].read), Asking)] else []
    case Tick(_) => if n.destroyed || c.FleetMetrics? then [] else [Task(i, OPS_KEY, None, Asking)]
    case _ => []
  }

  // ---- the whole ----------------------------------------------------------------------------

  predicate Is(s: State, t: nat, phase: Phase) {
    t < |s.tasks| && s.tasks[t].phase == phase && s.tasks[t].node < |s.nodes|
  }

  function Move(s: State, t: nat, phase: Phase): State
    requires t < |s.tasks|
  {
    s.(tasks := s.tasks[t := s.tasks[t].(phase := phase)])
  }

  /** A publish: every node, the publishing one included, will read what it adds to the channel. */
  function Issued(c: Broadcaster, s: State, t: nat, index: nat): State
    requires t < |s.tasks| && s.tasks[t].node < |s.nodes|
  {
    Move(s, t, Published(index + 1))
    .(issued := s.issued + [Issue(s.tasks[t].key, index, s.nodes[s.tasks[t].node].destroyed)],
      channel := s.channel + Output(c, index))
  }

  function Failed(phase: Phase): Phase {
    if phase.Asking? || phase.Unasked? then Unasked else Over
  }

  function Next(c: Broadcaster, s: State, step: Step): State {
    match step
    case Wait(ms) => s.(now := s.now + ms)
    case Post(w) => s.(channel := s.channel + [w], posted := s.posted + [w])
    case SetNx(t) =>
      if !Is(s, t, Asking) then s
      else
        var key := s.tasks[t].key;
        if key in s.locks && s.now < s.locks[key] then Move(s, t, Over)
        else Move(s, t, Computing).(locks := s.locks[key := s.now + c.debounce], grants := s.grants + [Grant(key, s.now)])
    case Computed(t) =>
      if !Is(s, t, Computing) then s
      else if s.nodes[s.tasks[t].node].destroyed then Move(s, t, Over)
      else Issued(c, s, t, 0)
    case PublishNext(t) =>
      if t >= |s.tasks| || s.tasks[t].node >= |s.nodes| || !s.tasks[t].phase.Published? then s
      else if s.tasks[t].phase.n < Publishes(c) then Issued(c, s, t, s.tasks[t].phase.n)
      else Move(s, t, Over)
    case Fail(t) => if t < |s.tasks| then Move(s, t, Failed(s.tasks[t].phase)) else s
    case _ =>
      var i := step.n;
      if i >= |s.nodes| then s
      else s.(nodes := s.nodes[i := Local(c, s, s.nodes[i], step)],
              tasks := s.tasks + Started(c, s.now, s.nodes[i], i, step))
  }

  function After(c: Broadcaster, nodes: nat, steps: seq<Step>): State {
    if steps == [] then Init(nodes) else Next(c, After(c, nodes, steps[..|steps| - 1]), steps[|steps| - 1])
  }

  // ---- timers and attempts -----------------------------------------------------------------

  /** How many messages of a log schedule a recompute. */
  function Scheduling(c: Broadcaster, log: seq<Wire>): nat {
    if log == [] then 0
    else Scheduling(c, log[..|log| - 1]) + if Schedules(c, log[|log| - 1]).Some? then 1 else 0
  }

  lemma SchedulingStep(c: Broadcaster, log: seq<Wire>, w: Wire)
    ensures Scheduling(c, log + [w]) == Scheduling(c, log) + if Schedules(c, w).Some? then 1 else 0
  {
    assert (log + [w])[..|log|] == log;
  }

  lemma {:induction false} SchedulingPrefix(c: Broadcaster, log: seq<Wire>, k: nat)
    requires k <= |log|
    ensures Scheduling(c, log[..k]) <= Scheduling(c, log)
  {
    if k == |log| {
      assert log[..k] == log;
    } else {
      var n := |log| - 1;
      SchedulingPrefix(c, log[..n], k);
      assert log[..n][..k] == log[..k];
    }
  }

  /** The live timers are exactly the ones in the service's map, each under its own key. */
  ghost predicate TimersInv(n: Node) {
    && (forall k :: k in n.pending ==> n.pending[k] in n.armed && n.armed[n.pending[k]].key == k)
    && (forall t :: t in n.armed ==> t < n.nextTimer && n.armed[t].key in n.pending && n.pending[n.armed[t].key] == t)
    && (n.destroyed ==> n.armed == map[])
  }

  /** Every attempt and every live timer goes back to a message the node read, or a tick, of its own. */
  ghost predicate NodeInv(c: Broadcaster, channel: seq<Wire>, n: Node) {
    && TimersInv(n)
    && n.read <= |channel|
    && n.attempts + |n.armed| <= Scheduling(c, channel[..n.read]) + n.ticks
    && (!n.destroyed ==> |n.handled| == Scheduling(c, channel[..n.read]))
  }

  lemma RemoveOne(m: map<nat, Timer>, t: nat)
    requires t in m
    ensures |m - {t}| == |m| - 1
  {
    assert (m - {t}).Keys == m.Keys - {t};
    assert |(m - {t}).Keys| == |m.Keys| - 1;
  }

  lemma AddOne(m: map<nat, Timer>, t: nat, timer: Timer)
    requires t !in m
    ensures |m[t := timer]| == |m| + 1
  {
    assert m[t := timer].Keys == m.Keys + {t};
    assert |m[t := timer].Keys| == |m.Keys| + 1;
  }

  lemma ScheduleKeeps(c: Broadcaster, n: Node, now: int, key: string)
    requires TimersInv(n) && !n.destroyed
    ensures TimersInv(Schedule(c, n, now, key))
    ensures |Schedule(c, n, now, key).armed| <= |n.armed| + 1
  {
    var others := if key in n.pending then n.armed - {n.pending[key]} else n.armed;
    if key in n.pending {
      RemoveOne(n.armed, n.pending[key]);
    }
    AddOne(others, n.nextTimer, Timer(key, now + c.debounce, now));
  }

  lemma ReadOne(c: Broadcaster, channel: seq<Wire>, k: nat)
    requires k < |channel|
    ensures Scheduling(c, channel[..k + 1]) == Scheduling(c, channel[..k]) + if Schedules(c, channel[k]).Some? then 1 else 0
  {
    assert channel[..k + 1] == channel[..k] + [channel[k]];
    SchedulingStep(c, channel[..k], channel[k]);
  }

  lemma SkipKeeps(c: Broadcaster, channel: seq<Wire>, n: Node)
    requires NodeInv(c, channel, n) && n.read < |channel|
    requires n.destroyed || Schedules(c, channel[n.read]).None?
    ensures NodeInv(c, channel, n.(read := n.read + 1))
  {
    ReadOne(c, channel, n.read);
  }

  lemma ScheduledKeeps(c: Broadcaster, channel: seq<Wire>, n: Node, now: int, key: string)
    requires NodeInv(c, channel, n) && n.read < |channel| && !n.destroyed && Schedules(c, channel[n.read]) == Some(key)
    ensures NodeInv(c, channel, Schedule(c, n, now, key).(read := n.read + 1))
  {
    ReadOne(c, channel, n.read);
    ScheduleKeeps(c, n, now, key);
    var n' := Schedule(c, n, now, key);
    assert TimersInv(n'.(read := n.read + 1));
  }

  lemma ReceiveKeeps(c: Broadcaster, s: State, n: Node)
    requires NodeInv(c, s.channel, n) && n.read < |s.channel|
    ensures NodeInv(c, s.channel, Handle(c, n, s.now, s.channel[n.read]).(read := n.read + 1))
  {
    var key := Schedules(c, s.channel[n.read]);
    if !n.destroyed && key.Some? {
      ScheduledKeeps(c, s.channel, n, s.now, key.value);
    } else {
      SkipKeeps(c, s.channel, n);
    }
  }

  lemma FireKeeps(c: Broadcaster, s: State, n: Node, timer: nat)
    requires NodeInv(c, s.channel, n) && timer in n.armed
    ensures var fired := n.(armed := n.armed - {timer}, pending := n.pending - {n.armed[timer].key}, attempts := n.attempts + 1);
            NodeInv(c, s.channel, fired)
  {
    RemoveOne(n.armed, timer);
  }

  lemma TickKeeps(c: Broadcaster, channel: seq<Wire>, n: Node)
    requires NodeInv(c, channel, n)
    ensures NodeInv(c, channel, n.(ticks := n.ticks + 1, attempts := n.attempts + 1))
  {
  }

  lemma DestroyKeeps(c: Broadcaster, channel: seq<Wire>, n: Node)
    requires NodeInv(c, channel, n)
    ensures NodeInv(c, channel, n.(destroyed := true, pending := map[], armed := map[]))
  {
  }

  lemma LocalKeeps(c: Broadcaster, s: State, n: Node, step: Step)
    requires NodeInv(c, s.channel, n)
    ensures NodeInv(c, s.channel, Local(c, s, n, step))
  {
    match step
    case Receive(_) => if n.read < |s.channel| { ReceiveKeeps(c, s, n); }
    case Fire(_, timer) => if timer in n.armed { FireKeeps(c, s, n, timer); }
    case Tick(_) => TickKeeps(c, s.channel, n);
    case Destroy(_) => DestroyKeeps(c, s.channel, n);
    case _ =>
  }

  /** What is published later does not change what a node has read. */
  lemma ChannelGrows(c: Broadcaster, channel: seq<Wire>, more: seq<Wire>, n: Node)
    requires NodeInv(c, channel, n)
    ensures NodeInv(c, channel + more, n)
  {
    assert (channel + more)[..n.read] == channel[..n.read];
  }

  /** A step changes at most the one node it names, and only adds to the channel. */
  lemma NextNodes(c: Broadcaster, s: State, step: Step)
    ensures |Next(c, s, step).nodes| == |s.nodes| && s.channel <= Next(c, s, step).channel
    ensures forall i :: 0 <= i < |s.nodes| ==>
              || Next(c, s, step).nodes[i] == s.nodes[i]
              || (Next(c, s, step).nodes[i] == Local(c, s, s.nodes[i], step) && Next(c, s, step).channel == s.channel)
  {
  }

  lemma NodeStep(c: Broadcaster, s: State, step: Step, i: nat)
    requires i < |s.nodes| && NodeInv(c, s.channel, s.nodes[i])
    ensures |Next(c, s, step).nodes| == |s.nodes| && NodeInv(c, Next(c, s, step).channel, Next(c, s, step).nodes[i])
  {
    var s' := Next(c, s, step);
    NextNodes(c, s, step);
    if s'.nodes[i] == s.nodes[i] {
      ChannelGrows(c, s.channel, s'.channel[|s.channel|..], s.nodes[i]);
      assert s.channel + s'.channel[|s.channel|..] == s'.channel;
    } else {
      LocalKeeps(c, s, s.nodes[i], step);
    }
  }

  lemma NodesStep(c: Broadcaster, s: State, step: Step)
    requires forall i :: 0 <= i < |s.nodes| ==> NodeInv(c, s.channel, s.nodes[i])
    ensures var s' := Next(c, s, step);
            |s'.nodes| == |s.nodes| && forall i :: 0 <= i < |s.nodes| ==> NodeInv(c, s'.channel, s'.nodes[i])
  {
    var s' := Next(c, s, step);
    NextNodes(c, s, step);
    forall i | 0 <= i < |s.nodes| ensures NodeInv(c, s'.channel, s'.nodes[i]) {
      NodeStep(c, s, step, i);
    }
  }

  lemma {:induction false} NodesReachable(c: Broadcaster, nodes: nat, steps: seq<Step>)
    ensures var s := After(c, nodes, steps);
            |s.nodes| == nodes && forall i :: 0 <= i < nodes ==> NodeInv(c, s.channel, s.nodes[i])
  {
    if steps == [] {
    } else {
      NodesReachable(c, nodes, steps[..|steps| - 1]);
      NodesStep(c, After(c, nodes, steps[..|steps| - 1]), steps[|steps| - 1]);
    }
  }

  /** In every reachable state a node has at most one live timer per key, and none once it is destroyed. */
  lemma OneTimerPerKey(c: Broadcaster, nodes: nat, steps: seq<Step>, i: nat)
    requires i < nodes
    ensures |After(c, nodes, steps).nodes| == nodes
    ensures var n := After(c, nodes, steps).nodes[i];
            && (forall t, u :: t in n.armed && u in n.armed && n.armed[t].key == n.armed[u].key ==> t == u)
            && (n.destroyed ==> n.armed == map[])
  {
    NodesReachable(c, nodes, steps);
  }

  // ---- no feedback ---------------------------------------------------------------------------

  /** What the issued publishes put on the channel. */
  function Outputs(c: Broadcaster, issued: seq<Issue>): seq<Wire> {
    if issued == [] then [] else Outputs(c, issued[..|issued| - 1]) + Output(c, issued[|issued| - 1].index)
  }

  /** The channel is what others posted and what the broadcasters published; only the former schedules anything. */
  ghost predicate Accounted(c: Broadcaster, channel: seq<Wire>, posted: seq<Wire>, issued: seq<Issue>) {
    && multiset(channel) == multiset(posted) + multiset(Outputs(c, issued))
    && Scheduling(c, channel) == Scheduling(c, posted)
  }

  ghost predicate ChannelInv(c: Broadcaster, s: State) {
    Accounted(c, s.channel, s.posted, s.issued)
  }

  /** The broadcaster's own kinds of message schedule nothing. */
  lemma OutputSchedulesNothing(c: Broadcaster, log: seq<Wire>, index: nat)
    ensures Scheduling(c, log + Output(c, index)) == Scheduling(c, log)
  {
    if c.FleetMetrics? {
      assert log + [] == log;
    } else {
      var w := Output(c, index)[0];
      assert w.kind[0] == 'o';
      SchedulingStep(c, log, w);
    }
  }

  lemma AccountedIssue(c: Broadcaster, channel: seq<Wire>, posted: seq<Wire>, issued: seq<Issue>, e: Issue)
    requires Accounted(c, channel, posted, issued)
    ensures Accounted(c, channel + Output(c, e.index), posted, issued + [e])
  {
    assert (issued + [e])[..|issued|] == issued;
    OutputSchedulesNothing(c, channel, e.index);
  }

  lemma AccountedPost(c: Broadcaster, channel: seq<Wire>, posted: seq<Wire>, issued: seq<Issue>, w: Wire)
    requires Accounted(c, channel, posted, issued)
    ensures Accounted(c, channel + [w], posted + [w], issued)
  {
    SchedulingStep(c, channel, w);
    SchedulingStep(c, posted, w);
  }

  /** A step adds to the channel by posting, by publishing, or not at all. */
  lemma NextChannel(c: Broadcaster, s: State, step: Step)
    ensures var s' := Next(c, s, step);
            || (step.Post? && s'.channel == s.channel + [step.w] && s'.posted == s.posted + [step.w] && s'.issued == s.issued)
            || (s'.channel == s.channel && s'.posted == s.posted && s'.issued == s.issued)
            || (&& |s'.issued| == |s.issued| + 1
                && s'.issued == s.issued + [s'.issued[|s.issued|]]
                && s'.channel == s.channel + Output(c, s'.issued[|s.issued|].index)
                && s'.posted == s.posted)
  {
  }

  lemma ChannelStep(c: Broadcaster, s: State, step: Step)
    requires ChannelInv(c, s)
    ensures ChannelInv(c, Next(c, s, step))
  {
    var s' := Next(c, s, step);
    NextChannel(c, s, step);
    if step.Post? {
      AccountedPost(c, s.channel, s.posted, s.issued, step.w);
    } else if |s'.issued| > |s.issued| {
      AccountedIssue(c, s.channel, s.posted, s.issued, s'.issued[|s.issued|]);
    }
  }

  lemma {:induction false} ChannelReachable(c: Broadcaster, nodes: nat, steps: seq<Step>)
    ensures ChannelInv(c, After(c, nodes, steps))
  {
    if steps == [] {
    } else {
      ChannelReachable(c, nodes, steps[..|steps| - 1]);
      ChannelStep(c, After(c, nodes, steps[..|steps| - 1]), steps[|steps| - 1]);
    }
  }

  /**
   No feedback: in every reachable state the channel holds the posted messages and every
   publish of every recompute; a node that has read any part of it has attempted at most
   one recompute per scheduling message it read and per tick; and those messages are at
   most the posted ones, so what the broadcasters publish never causes a recompute.
   */
  lemma NoFeedback(c: Broadcaster, nodes: nat, steps: seq<Step>, i: nat)
    requires i < nodes
    ensures |After(c, nodes, steps).nodes| == nodes
    ensures var s := After(c, nodes, steps);
            var n := s.nodes[i];
            && multiset(s.channel) == multiset(s.posted) + multiset(Outputs(c, s.issued))
            && n.read <= |s.channel|
            && n.attempts + |n.armed| <= Scheduling(c, s.channel[..n.read]) + n.ticks
            && Scheduling(c, s.channel[..n.read]) <= Scheduling(c, s.posted)
  {
    NodesReachable(c, nodes, steps);
    ChannelReachable(c, nodes, steps);
    var s := After(c, nodes, steps);
    SchedulingPrefix(c, s.channel, s.nodes[i].read);
  }

  /** How many messages report a booking's creation or change. */
  function BookingKinds(log: seq<Wire>): nat {
    if log == [] then 0
    else
      var w := log[|log| - 1];
      BookingKinds(log[..|log| - 1]) + if w.Object? && w.kind in {"booking_status", "booking_created"} then 1 else 0
  }

  lemma {:induction false} AdminScheduling(debounce: nat, log: seq<Wire>)
    ensures Scheduling(AdminOps(debounce), log) == BookingKinds(log)
  {
    if log == [] {
    } else {
      AdminScheduling(debounce, log[..|log| - 1]);
    }
  }

  /**
   The same for the admin broadcaster in the channel's own terms: whatever of its own
   `ops_metrics` and `ops_badges` a node reads back, it attempts at most one recompute per
   booking message it read and per tick.
   */
  lemma AdminAttemptsAreBounded(debounce: nat, nodes: nat, steps: seq<Step>, i: nat)
    requires i < nodes
    ensures |After(AdminOps(debounce), nodes, steps).nodes| == nodes
    ensures var s := After(AdminOps(debounce), nodes, steps);
            var n := s.nodes[i];
            && n.read <= |s.channel|
            && n.attempts <= BookingKinds(s.channel[..n.read]) + n.ticks
            && BookingKinds(s.channel) == BookingKinds(s.posted)
            && |s.channel| == |s.posted| + |s.issued|
  {
    var c := AdminOps(debounce);
    NoFeedback(c, nodes, steps, i);
    ChannelReachable(c, nodes, steps);
    var s := After(c, nodes, steps);
    AdminScheduling(debounce, s.channel[..s.nodes[i].read]);
    AdminScheduling(debounce, s.channel);
    AdminScheduling(debounce, s.posted);
    AdminOutputs(debounce, s.issued);
    assert |multiset(s.channel)| == |s.channel| && |multiset(s.posted)| == |s.posted|;
  }

  /** What the admin broadcaster published, one message per publish: the metrics first, then the badges. */
  lemma {:induction false} AdminOutputs(debounce: nat, issued: seq<Issue>)
    ensures |Outputs(AdminOps(debounce), issued)| == |issued|
    ensures forall i :: 0 <= i < |issued| ==>
              Outputs(AdminOps(debounce), issued)[i] == Object(if issued[i].index == 0 then "ops_metrics" else "ops_badges", None)
  {
    if issued == [] {
    } else {
      AdminOutputs(debounce, issued[..|issued| - 1]);
    }
  }

  // ---- which key --------------------------------------------------------------------------------

  function KeysOf(handled: seq<Read>): seq<string> {
    seq(|handled|, i requires 0 <= i < |handled| => handled[i].key)
  }

  /** The keys a log schedules. */
  function ScheduledKeys(c: Broadcaster, log: seq<Wire>): seq<string> {
    if log == [] then []
    else
      var key := Schedules(c, log[|log| - 1]);
      ScheduledKeys(c, log[..|log| - 1]) + if key.Some? then [key.value] else []
  }

  lemma {:induction false} SchedulingKeys(c: Broadcaster, log: seq<Wire>)
    ensures |ScheduledKeys(c, log)| == Scheduling(c, log)
  {
    if log == [] {
    } else {
      SchedulingKeys(c, log[..|log| - 1]);
    }
  }

  /** The fleets a log names, message by message; an empty id names none. */
  function FleetsNamed(log: seq<Wire>): seq<string> {
    if log == [] then []
    else
      var w := log[|log| - 1];
      FleetsNamed(log[..|log| - 1]) + if w.Object? && w.fleetId.Some? && w.fleetId.value != "" then [w.fleetId.value] else []
  }

  lemma {:induction false} FleetKeys(debounce: nat, log: seq<Wire>)
    ensures ScheduledKeys(FleetMetrics(debounce), log) == FleetsNamed(log)
  {
    if log == [] {
    } else {
      FleetKeys(debounce, log[..|log| - 1]);
    }
  }

  ghost predicate HandledInv(c: Broadcaster, channel: seq<Wire>, n: Node) {
    && n.read <= |channel| && (!n.destroyed ==> KeysOf(n.handled) == ScheduledKeys(c, channel[..n.read]))
    && (c.FleetMetrics? ==> n.ticks == 0)
  }

  lemma HandledReceive(c: Broadcaster, s: State, n: Node)
    requires HandledInv(c, s.channel, n) && n.read < |s.channel|
    ensures HandledInv(c, s.channel, Handle(c, n, s.now, s.channel[n.read]).(read := n.read + 1))
  {
    var n' := Handle(c, n, s.now, s.channel[n.read]);
    assert s.channel[..n.read + 1][..n.read] == s.channel[..n.read];
    var key := Schedules(c, s.channel[n.read]);
    if !n.destroyed && key.Some? {
      assert KeysOf(n'.handled) == KeysOf(n.handled) + [key.value];
    }
  }

  lemma HandledLocal(c: Broadcaster, s: State, n: Node, step: Step)
    requires HandledInv(c, s.channel, n)
    ensures HandledInv(c, s.channel, Local(c, s, n, step))
  {
    if step.Receive? && n.read < |s.channel| {
      HandledReceive(c, s, n);
    }
  }

  lemma HandledStep(c: Broadcaster, s: State, step: Step, i: nat)
    requires i < |s.nodes| && HandledInv(c, s.channel, s.nodes[i])
    ensures i < |Next(c, s, step).nodes| && HandledInv(c, Next(c, s, step).channel, Next(c, s, step).nodes[i])
  {
    var s' := Next(c, s, step);
    NextNodes(c, s, step);
    if s'.nodes[i] == s.nodes[i] {
      assert s'.channel[..s.nodes[i].read] == s.channel[..s.nodes[i].read];
    } else {
      HandledLocal(c, s, s.nodes[i], step);
    }
  }

  lemma {:induction false} HandledReachable(c: Broadcaster, nodes: nat, steps: seq<Step>, i: nat)
    requires i < nodes
    ensures |After(c, nodes, steps).nodes| == nodes
    ensures HandledInv(c, After(c, nodes, steps).channel, After(c, nodes, steps).nodes[i])
  {
    if steps == [] {
    } else {
      HandledReachable(c, nodes, steps[..|steps| - 1], i);
      HandledStep(c, After(c, nodes, steps[..|steps| - 1]), steps[|steps| - 1], i);
      NextNodes(c, After(c, nodes, steps[..|steps| - 1]), steps[|steps| - 1]);
    }
  }

  /**
   In every reachable state, a live node of the fleet broadcaster has handled a message for
   exactly the fleets named in what it read, in order; and any node has attempted at most one
   recompute per such message, having no tick.
   */
  lemma FleetHandlesItsFleets(debounce: nat, nodes: nat, steps: seq<Step>, i: nat)
    requires i < nodes
    ensures |After(FleetMetrics(debounce), nodes, steps).nodes| == nodes
    ensures var s := After(FleetMetrics(debounce), nodes, steps);
            var n := s.nodes[i];
            && n.read <= |s.channel| && (!n.destroyed ==> KeysOf(n.handled) == FleetsNamed(s.channel[..n.read]))
            && n.ticks == 0 && n.attempts <= |FleetsNamed(s.channel[..n.read])|
  {
    HandledReachable(FleetMetrics(debounce), nodes, steps, i);
    NodesReachable(FleetMetrics(debounce), nodes, steps);
    var s := After(FleetMetrics(debounce), nodes, steps);
    FleetKeys(debounce, s.channel[..s.nodes[i].read]);
    SchedulingKeys(FleetMetrics(debounce), s.channel[..s.nodes[i].read]);
  }

  // ---- the lock --------------------------------------------------------------------------------

  ghost predicate Spaced(c: Broadcaster, grants: seq<Grant>) {
    forall i, j :: 0 <= i < j < |grants| && grants[i].key == grants[j].key ==> grants[i].at + c.debounce <= grants[j].at
  }

  ghost predicate LocksInv(c: Broadcaster, locks: map<string, int>, grants: seq<Grant>) {
    && (forall g :: g in grants ==> g.key in locks && g.at + c.debounce <= locks[g.key])
    && (forall k :: k in locks ==> HeldBy(c, locks, grants, k))
    && Spaced(c, grants)
  }

  /** Some grant of the key set the lock. */
  ghost predicate HeldBy(c: Broadcaster, locks: map<string, int>, grants: seq<Grant>, k: string)
    requires k in locks
  {
    exists g :: g in grants && g.key == k && locks[k] == g.at + c.debounce
  }

  lemma SpacedGrant(c: Broadcaster, grants: seq<Grant>, key: string, now: int)
    requires Spaced(c, grants)
    requires forall g :: g in grants && g.key == key ==> g.at + c.debounce <= now
    ensures Spaced(c, grants + [Grant(key, now)])
  {
    var grants' := grants + [Grant(key, now)];
    forall i, j | 0 <= i < j < |grants'| && grants'[i].key == grants'[j].key
      ensures grants'[i].at + c.debounce <= grants'[j].at
    {
      assert grants'[i] == grants[i] && grants[i] in grants;
    }
  }

  lemma HeldGrant(c: Broadcaster, locks: map<string, int>, grants: seq<Grant>, key: string, now: int, k: string)
    requires k in locks ==> HeldBy(c, locks, grants, k)
    requires k in locks || k == key
    ensures HeldBy(c, locks[key := now + c.debounce], grants + [Grant(key, now)], k)
  {
    var grants' := grants + [Grant(key, now)];
    if k == key {
      assert grants'[|grants|] == Grant(key, now) && Grant(key, now) in grants';
    } else {
      var g :| g in grants && g.key == k && locks[k] == g.at + c.debounce;
      assert g in grants';
    }
  }

  lemma LocksGrant(c: Broadcaster, locks: map<string, int>, grants: seq<Grant>, key: string, now: int)
    requires LocksInv(c, locks, grants) && (key in locks ==> locks[key] <= now)
    ensures LocksInv(c, locks[key := now + c.debounce], grants + [Grant(key, now)])
  {
    var locks', grants' := locks[key := now + c.debounce], grants + [Grant(key, now)];
    SpacedGrant(c, grants, key, now);
    forall g | g in grants' ensures g.key in locks' && g.at + c.debounce <= locks'[g.key] {
      assert g in grants || g == Grant(key, now);
    }
    forall k | k in locks' ensures HeldBy(c, locks', grants', k) {
      HeldGrant(c, locks, grants, key, now, k);
    }
  }

  /** Only the winner of a `SET NX` changes locks and grants. */
  lemma NextLocks(c: Broadcaster, s: State, step: Step)
    ensures var s' := Next(c, s, step);
            || (s'.locks == s.locks && s'.grants == s.grants)
            || (&& step.SetNx? && Is(s, step.t, Asking)
                && var key := s.tasks[step.t].key;
                && (key in s.locks ==> s.locks[key] <= s.now)
                && s'.locks == s.locks[key := s.now + c.debounce] && s'.grants == s.grants + [Grant(key, s.now)])
  {
  }

  lemma LocksStep(c: Broadcaster, s: State, step: Step)
    requires LocksInv(c, s.locks, s.grants)
    ensures LocksInv(c, Next(c, s, step).locks, Next(c, s, step).grants)
  {
    NextLocks(c, s, step);
    if step.SetNx? && Next(c, s, step).grants != s.grants {
      LocksGrant(c, s.locks, s.grants, s.tasks[step.t].key, s.now);
    }
  }

  lemma {:induction false} LocksReachable(c: Broadcaster, nodes: nat, steps: seq<Step>)
    ensures LocksInv(c, After(c, nodes, steps).locks, After(c, nodes, steps).grants)
  {
    if steps == [] {
    } else {
      LocksReachable(c, nodes, steps[..|steps| - 1]);
      LocksStep(c, After(c, nodes, steps[..|steps| - 1]), steps[|steps| - 1]);
    }
  }

  /** However many nodes race, two recomputes that won the same lock are a debounce period apart. */
  lemma RecomputesAreSpaced(c: Broadcaster, nodes: nat, steps: seq<Step>, i: nat, j: nat)
    requires i < j < |After(c, nodes, steps).grants|
    requires After(c, nodes, steps).grants[i].key == After(c, nodes, steps).grants[j].key
    ensures After(c, nodes, steps).grants[j].at - After(c, nodes, steps).grants[i].at >= c.debounce
  {
    LocksReachable(c, nodes, steps);
  }

  // ---- no event goes unserved ----------------------------------------------------------------------

  /** The grant was taken after the message was read. */
  predicate ServesRead(c: Broadcaster, g: Grant, r: Read) {
    g.key == r.key && g.at >= r.at && (c.debounce > 0 ==> g.at > r.at)
  }

  ghost predicate Granted(c: Broadcaster, grants: seq<Grant>, r: Read) {
    exists g :: g in grants && ServesRead(c, g, r)
  }

  /** A timer is armed for it, or for a later message of its key. */
  ghost predicate TimerServes(n: Node, r: Read) {
    exists t :: t in n.armed && n.armed[t].key == r.key && n.armed[t].read >= r.at
  }

  /** A recompute the message, or a later one of its key, led to on that node, that has not asked for the lock or failed to. */
  predicate IsWaiting(task: Task, i: nat, r: Read) {
    && task.node == i && task.key == r.key && task.read.Some? && task.read.value >= r.at
    && (task.phase.Asking? || task.phase.Unasked?)
  }

  ghost predicate TaskServes(tasks: seq<Task>, i: nat, r: Read) {
    exists t :: 0 <= t < |tasks| && IsWaiting(tasks[t], i, r)
  }

  ghost predicate Served(c: Broadcaster, s: State, i: nat, r: Read)
    requires i < |s.nodes|
  {
    s.nodes[i].destroyed || TimerServes(s.nodes[i], r) || TaskServes(s.tasks, i, r) || Granted(c, s.grants, r)
  }

  /** Timers fall due a debounce period after their message, and a recompute starts no sooner. */
  ghost predicate TimerOnTime(c: Broadcaster, now: int, timer: Timer) {
    timer.due == timer.read + c.debounce && timer.read <= now
  }

  ghost predicate NodeOnTime(c: Broadcaster, now: int, n: Node) {
    && (forall t :: t in n.armed ==> TimerOnTime(c, now, n.armed[t]))
    && (forall r :: r in n.handled ==> r.at <= now)
  }

  ghost predicate TaskOnTime(c: Broadcaster, now: int, task: Task) {
    task.read.Some? ==> task.read.value + c.debounce <= now
  }

  ghost predicate OnTime(c: Broadcaster, s: State) {
    && (forall i :: 0 <= i < |s.nodes| ==> NodeOnTime(c, s.now, s.nodes[i]))
    && (forall t :: 0 <= t < |s.tasks| ==> TaskOnTime(c, s.now, s.tasks[t]))
  }

  lemma LocalOnTime(c: Broadcaster, s: State, n: Node, step: Step)
    requires NodeOnTime(c, s.now, n)
    ensures NodeOnTime(c, s.now, Local(c, s, n, step))
  {
  }

  /** Tasks are only added by a node's step, and moved on without touching what they are for. */
  lemma NextTasks(c: Broadcaster, s: State, step: Step)
    ensures var s' := Next(c, s, step);
            && |s.tasks| <= |s'.tasks|
            && (forall t :: 0 <= t < |s.tasks| ==>
                  s'.tasks[t] == s.tasks[t] || (s'.tasks[t] == s.tasks[t].(phase := s'.tasks[t].phase) && TaskOf(step) == Some(t)))
            && (|s'.tasks| > |s.tasks| ==>
                  && (step.Fire? || step.Tick?) && step.n < |s.nodes|
                  && s'.tasks == s.tasks + Started(c, s.now, s.nodes[step.n], step.n, step))
  {
  }

  /** The recompute a step goes on with. */
  function TaskOf(step: Step): Option<nat> {
    if step.SetNx? || step.Computed? || step.PublishNext? || step.Fail? then Some(step.t) else None
  }

  lemma OnTimeStep(c: Broadcaster, s: State, step: Step)
    requires OnTime(c, s)
    ensures OnTime(c, Next(c, s, step))
  {
    var s' := Next(c, s, step);
    NextNodes(c, s, step);
    NextTasks(c, s, step);
    forall i | 0 <= i < |s'.nodes| ensures NodeOnTime(c, s'.now, s'.nodes[i]) {
      assert NodeOnTime(c, s.now, s.nodes[i]);
      LocalOnTime(c, s, s.nodes[i], step);
      assert s.now <= s'.now;
    }
    forall t | 0 <= t < |s'.tasks| ensures TaskOnTime(c, s'.now, s'.tasks[t]) {
      if t < |s.tasks| {
        assert TaskOnTime(c, s.now, s.tasks[t]);
      } else {
        assert NodeOnTime(c, s.now, s.nodes[step.n]);
        StartedOnTime(c, s, step);
      }
    }
  }

  lemma StartedOnTime(c: Broadcaster, s: State, step: Step)
    requires (step.Fire? || step.Tick?) && step.n < |s.nodes| && NodeOnTime(c, s.now, s.nodes[step.n])
    ensures forall t :: t in Started(c, s.now, s.nodes[step.n], step.n, step) ==> TaskOnTime(c, s.now, t)
  {
    if step.Fire? && step.timer in s.nodes[step.n].armed {
      assert TimerOnTime(c, s.now, s.nodes[step.n].armed[step.timer]);
    }
  }

  /** A timer that serves a read goes on doing so, or is replaced by a later one, or fires, or is cleared by a destroy. */
  lemma TimerKeepsServing(c: Broadcaster, s: State, n: Node, i: nat, step: Step, r: Read)
    requires TimersInv(n) && TimerServes(n, r) && r.at <= s.now
    ensures || Local(c, s, n, step).destroyed
            || TimerServes(Local(c, s, n, step), r)
            || (step.Fire? && !n.destroyed && exists task :: task in Started(c, s.now, n, i, step) && IsWaiting(task, i, r))
  {
    var t :| t in n.armed && n.armed[t].key == r.key && n.armed[t].read >= r.at;
    var n' := Local(c, s, n, step);
    match step
    case Receive(_) =>
      if n'.armed != n.armed {
        var key := Schedules(c, s.channel[n.read]).value;
        if key == r.key {
          assert n'.armed[n.nextTimer].key == r.key && n'.armed[n.nextTimer].read == s.now;
        } else {
          assert t in n'.armed && n'.armed[t] == n.armed[t];
        }
      } else {
        assert t in n'.armed;
      }
    case Fire(_, timer) =>
      if timer == t && s.now >= n.armed[t].due {
        assert !n.destroyed;
        assert Task(i, n.armed[t].key, Some(n.armed[t].read), Asking) in Started(c, s.now, n, i, step);
      } else {
        assert t in n'.armed && n'.armed[t] == n.armed[t];
      }
    case _ =>
      assert n'.armed == n.armed || n'.destroyed;
  }

  /** A recompute that loses the lock loses to a grant taken after its message was read; one that wins takes one. */
  lemma AskServes(c: Broadcaster, s: State, t: nat, i: nat, r: Read)
    requires LocksInv(c, s.locks, s.grants) && Is(s, t, Asking) && TaskOnTime(c, s.now, s.tasks[t]) && IsWaiting(s.tasks[t], i, r)
    ensures Granted(c, Next(c, s, SetNx(t)).grants, r)
  {
    var key, grants' := s.tasks[t].key, Next(c, s, SetNx(t)).grants;
    if key in s.locks && s.now < s.locks[key] {
      assert HeldBy(c, s.locks, s.grants, key);
      var g :| g in s.grants && g.key == key && s.locks[key] == g.at + c.debounce;
      assert g in grants' && ServesRead(c, g, r);
    } else {
      assert grants' == s.grants + [Grant(key, s.now)];
      assert grants'[|s.grants|] == Grant(key, s.now) && Grant(key, s.now) in grants';
      assert ServesRead(c, Grant(key, s.now), r);
    }
  }

  lemma TaskKeepsServing(c: Broadcaster, s: State, step: Step, i: nat, r: Read)
    requires LocksInv(c, s.locks, s.grants) && OnTime(c, s) && TaskServes(s.tasks, i, r) && i < |s.nodes|
    ensures TaskServes(Next(c, s, step).tasks, i, r) || Granted(c, Next(c, s, step).grants, r)
  {
    var t :| 0 <= t < |s.tasks| && IsWaiting(s.tasks[t], i, r);
    var s' := Next(c, s, step);
    NextTasks(c, s, step);
    if step == SetNx(t) && s.tasks[t].phase.Asking? {
      assert TaskOnTime(c, s.now, s.tasks[t]);
      AskServes(c, s, t, i, r);
    } else {
      assert IsWaiting(s'.tasks[t], i, r);
    }
  }

  lemma GrantedStays(c: Broadcaster, s: State, step: Step, r: Read)
    requires Granted(c, s.grants, r)
    ensures Granted(c, Next(c, s, step).grants, r)
  {
    NextLocks(c, s, step);
    var g :| g in s.grants && ServesRead(c, g, r);
    assert g in Next(c, s, step).grants;
  }

  ghost predicate Ready(c: Broadcaster, s: State) {
    && LocksInv(c, s.locks, s.grants)
    && OnTime(c, s)
    && forall i :: 0 <= i < |s.nodes| ==> TimersInv(s.nodes[i])
  }

  lemma TimerServedStep(c: Broadcaster, s: State, step: Step, i: nat, r: Read)
    requires Ready(c, s) && i < |s.nodes| && TimerServes(s.nodes[i], r) && r.at <= s.now
    ensures i < |Next(c, s, step).nodes| && Served(c, Next(c, s, step), i, r)
  {
    NextNodes(c, s, step);
    NextTasks(c, s, step);
    var s' := Next(c, s, step);
    if s'.nodes[i] != s.nodes[i] || (step.Fire? && step.n == i) {
      TimerKeepsServing(c, s, s.nodes[i], i, step, r);
      if step.Fire? && step.n == i && !s'.nodes[i].destroyed && !TimerServes(s'.nodes[i], r) {
        var task :| task in Started(c, s.now, s.nodes[i], i, step) && IsWaiting(task, i, r);
        assert s'.tasks == s.tasks + Started(c, s.now, s.nodes[i], i, step);
        assert s'.tasks[|s.tasks|] == task;
      }
    }
  }

  lemma ServedStep(c: Broadcaster, s: State, step: Step, i: nat, r: Read)
    requires Ready(c, s) && i < |s.nodes| && Served(c, s, i, r) && r.at <= s.now
    ensures i < |Next(c, s, step).nodes| && Served(c, Next(c, s, step), i, r)
  {
    NextNodes(c, s, step);
    if Granted(c, s.grants, r) {
      GrantedStays(c, s, step, r);
    } else if s.nodes[i].destroyed {
      DestroyedStep(c, s, step, i);
    } else if TaskServes(s.tasks, i, r) {
      TaskKeepsServing(c, s, step, i, r);
    } else {
      TimerServedStep(c, s, step, i, r);
    }
  }

  /** A message just handled is served by the timer it armed. */
  lemma NewReadServed(c: Broadcaster, s: State, step: Step, i: nat, r: Read)
    requires i < |s.nodes| && i < |Next(c, s, step).nodes| && r in Next(c, s, step).nodes[i].handled && r !in s.nodes[i].handled
    ensures Served(c, Next(c, s, step), i, r)
  {
    var n, n' := s.nodes[i], Next(c, s, step).nodes[i];
    NextNodes(c, s, step);
    assert step.Receive?;
    assert r == n'.handled[|n.handled|];
    assert n'.armed[n.nextTimer].key == r.key && n'.armed[n.nextTimer].read == r.at;
  }

  ghost predicate AllServed(c: Broadcaster, s: State) {
    forall i, r :: 0 <= i < |s.nodes| && r in s.nodes[i].handled ==> Served(c, s, i, r)
  }

  lemma AllServedStep(c: Broadcaster, s: State, step: Step)
    requires Ready(c, s) && AllServed(c, s)
    ensures AllServed(c, Next(c, s, step))
  {
    var s' := Next(c, s, step);
    NextNodes(c, s, step);
    forall i, r | 0 <= i < |s'.nodes| && r in s'.nodes[i].handled ensures Served(c, s', i, r) {
      if r in s.nodes[i].handled {
        assert NodeOnTime(c, s.now, s.nodes[i]);
        ServedStep(c, s, step, i, r);
      } else {
        NewReadServed(c, s, step, i, r);
      }
    }
  }

  lemma ReadyReachable(c: Broadcaster, nodes: nat, steps: seq<Step>)
    requires OnTime(c, After(c, nodes, steps))
    ensures Ready(c, After(c, nodes, steps))
  {
    LocksReachable(c, nodes, steps);
    NodesReachable(c, nodes, steps);
  }

  lemma {:induction false} ServedReachable(c: Broadcaster, nodes: nat, steps: seq<Step>)
    ensures OnTime(c, After(c, nodes, steps)) && AllServed(c, After(c, nodes, steps))
  {
    if steps == [] {
    } else {
      var before, step := steps[..|steps| - 1], steps[|steps| - 1];
      ServedReachable(c, nodes, before);
      ReadyReachable(c, nodes, before);
      OnTimeStep(c, After(c, nodes, before), step);
      AllServedStep(c, After(c, nodes, before), step);
    }
  }

  /**
   No event goes unserved: in every reachable state, each scheduling message a node has read
   and was alive to handle has a grant of its lock taken after it was read, or is still going
   to ask for one (a timer is armed, a recompute is about to ask); unless the node was
   destroyed or the request for the lock failed. On a node still alive those messages are all
   the scheduling ones it read. A recompute that finds the lock taken gives up nothing.
   */
  lemma NoEventUnserved(c: Broadcaster, nodes: nat, steps: seq<Step>, i: nat, r: Read)
    requires i < nodes
    ensures |After(c, nodes, steps).nodes| == nodes
    ensures var s := After(c, nodes, steps);
            && (r in s.nodes[i].handled ==> Served(c, s, i, r))
            && s.nodes[i].read <= |s.channel|
            && (!s.nodes[i].destroyed ==> |s.nodes[i].handled| == Scheduling(c, s.channel[..s.nodes[i].read]))
  {
    NodesReachable(c, nodes, steps);
    ServedReachable(c, nodes, steps);
  }

  /** In particular, a recompute that is refused the lock was overtaken by a grant later than its message. */
  lemma LosersAreOvertaken(c: Broadcaster, nodes: nat, steps: seq<Step>, t: nat)
    requires Is(After(c, nodes, steps), t, Asking) && After(c, nodes, steps).tasks[t].read.Some?
    requires Next(c, After(c, nodes, steps), SetNx(t)).grants == After(c, nodes, steps).grants
    ensures var s := After(c, nodes, steps);
            exists g :: g in s.grants && g.key == s.tasks[t].key && g.at > s.tasks[t].read.value
  {
    var s := After(c, nodes, steps);
    ServedReachable(c, nodes, steps);
    LocksReachable(c, nodes, steps);
    assert TaskOnTime(c, s.now, s.tasks[t]);
    var key := s.tasks[t].key;
    assert key in s.locks && s.now < s.locks[key];
    assert HeldBy(c, s.locks, s.grants, key);
  }

  // ---- publishing after destroy ------------------------------------------------------------------

  ghost predicate IssuesInv(c: Broadcaster, s: State) {
    && (forall e :: e in s.issued ==> e.index < Publishes(c) && (e.late ==> e.index > 0))
    && (forall t :: t in s.tasks ==> t.node < |s.nodes| && (t.phase.Published? ==> t.phase.n > 0))
  }

  lemma IssuesStep(c: Broadcaster, s: State, step: Step)
    requires IssuesInv(c, s)
    ensures IssuesInv(c, Next(c, s, step))
  {
  }

  lemma {:induction false} IssuesReachable(c: Broadcaster, nodes: nat, steps: seq<Step>)
    ensures IssuesInv(c, After(c, nodes, steps))
  {
    if steps == [] {
    } else {
      IssuesReachable(c, nodes, steps[..|steps| - 1]);
      IssuesStep(c, After(c, nodes, steps[..|steps| - 1]), steps[|steps| - 1]);
    }
  }

  lemma DestroyedStep(c: Broadcaster, s: State, step: Step, i: nat)
    requires i < |s.nodes|
    ensures |Next(c, s, step).nodes| == |s.nodes|
    ensures Next(c, s, step).nodes[i].destroyed <==> s.nodes[i].destroyed || step == Destroy(i)
  {
  }

  /** A node is destroyed exactly once its destroy has run. */
  lemma {:induction false} DestroyedIff(c: Broadcaster, nodes: nat, steps: seq<Step>, i: nat)
    requires i < nodes
    ensures |After(c, nodes, steps).nodes| == nodes
    ensures After(c, nodes, steps).nodes[i].destroyed <==> Destroy(i) in steps
  {
    if steps == [] {
    } else {
      DestroyedIff(c, nodes, steps[..|steps| - 1], i);
      DestroyedStep(c, After(c, nodes, steps[..|steps| - 1]), steps[|steps| - 1], i);
      assert steps == steps[..|steps| - 1] + [steps[|steps| - 1]];
    }
  }

  ghost predicate SomeLate(issued: seq<Issue>) {
    exists e :: e in issued && e.late
  }

  /** Step `k` resumes a recompute that still has a publish to issue, on a node destroyed earlier in the run. */
  ghost predicate ResumesDestroyed(c: Broadcaster, nodes: nat, steps: seq<Step>, k: nat) {
    && k < |steps|
    && steps[k].PublishNext?
    && var s, t := After(c, nodes, steps[..k]), steps[k].t;
    && t < |s.tasks|
    && s.tasks[t].phase.Published? && s.tasks[t].phase.n < Publishes(c)
    && Destroy(s.tasks[t].node) in steps[..k]
  }

  lemma LateStep(c: Broadcaster, nodes: nat, steps: seq<Step>)
    requires steps != []
    ensures SomeLate(After(c, nodes, steps).issued) <==>
              SomeLate(After(c, nodes, steps[..|steps| - 1]).issued) || ResumesDestroyed(c, nodes, steps, |steps| - 1)
  {
    var k := |steps| - 1;
    var s, s' := After(c, nodes, steps[..k]), After(c, nodes, steps);
    IssuesReachable(c, nodes, steps[..k]);
    NodesReachable(c, nodes, steps[..k]);
    if s'.issued != s.issued {
      var t, e := steps[k].t, s'.issued[|s.issued|];
      assert s'.issued == s.issued + [e];
      assert s.tasks[t] in s.tasks;
      DestroyedIff(c, nodes, steps[..k], s.tasks[t].node);
      assert e.late <==> steps[k].PublishNext? && s.nodes[s.tasks[t].node].destroyed;
    }
  }

  lemma ResumesEarlier(c: Broadcaster, nodes: nat, steps: seq<Step>, k: nat)
    requires k < |steps| - 1
    ensures ResumesDestroyed(c, nodes, steps, k) <==> ResumesDestroyed(c, nodes, steps[..|steps| - 1], k)
  {
    assert steps[..|steps| - 1][..k] == steps[..k];
  }

  /**
   Exactly which runs publish after destroy: those in which a recompute between two of its
   publishes is resumed after its node's destroy.
   */
  lemma {:induction false} LateIff(c: Broadcaster, nodes: nat, steps: seq<Step>)
    ensures SomeLate(After(c, nodes, steps).issued) <==> exists k: nat :: ResumesDestroyed(c, nodes, steps, k)
  {
    if steps == [] {
    } else {
      var n := |steps| - 1;
      LateIff(c, nodes, steps[..n]);
      LateStep(c, nodes, steps);
      if exists k: nat :: ResumesDestroyed(c, nodes, steps[..n], k) {
        var k: nat :| ResumesDestroyed(c, nodes, steps[..n], k);
        ResumesEarlier(c, nodes, steps, k);
        assert ResumesDestroyed(c, nodes, steps, k);
      }
      if exists k: nat :: ResumesDestroyed(c, nodes, steps, k) {
        var k: nat :| ResumesDestroyed(c, nodes, steps, k);
        if k < n {
          ResumesEarlier(c, nodes, steps, k);
          assert ResumesDestroyed(c, nodes, steps[..n], k);
        }
      }
    }
  }

  /** The fleet broadcaster, which has nothing left to publish after its first, never does so late. */
  lemma FleetIsNeverLate(c: Broadcaster, nodes: nat, steps: seq<Step>)
    requires c.FleetMetrics?
    ensures !SomeLate(After(c, nodes, steps).issued)
  {
    IssuesReachable(c, nodes, steps);
  }

  /** What the admin broadcaster does keep: the first publish of a recompute is never late. */
  lemma OnlyTheSecondIsLate(c: Broadcaster, nodes: nat, steps: seq<Step>, e: Issue)
    requires c.AdminOps? && e in After(c, nodes, steps).issued && e.late
    ensures e.index == 1
  {
    IssuesReachable(c, nodes, steps);
  }

  /** A destroy between the two publishes of one recompute. */
  function LateRun(): seq<Step> {
    [] + [Tick(0)] + [SetNx(0)] + [Computed(0)] + [Destroy(0)] + [PublishNext(0)]
  }

  lemma AfterStep(c: Broadcaster, nodes: nat, steps: seq<Step>, step: Step)
    ensures After(c, nodes, steps + [step]) == Next(c, After(c, nodes, steps), step)
  {
    assert (steps + [step])[..|steps|] == steps;
  }

  lemma LateRunIsLate(c: Broadcaster)
    requires c.AdminOps?
    ensures Issue(OPS_KEY, 1, true) in After(c, 1, LateRun()).issued
  {
    var r1: seq<Step> := [] + [Tick(0)];
    var r2 := r1 + [SetNx(0)];
    var r3 := r2 + [Computed(0)];
    var r4 := r3 + [Destroy(0)];
    AfterStep(c, 1, [], Tick(0));
    AfterStep(c, 1, r1, SetNx(0));
    AfterStep(c, 1, r2, Computed(0));
    AfterStep(c, 1, r3, Destroy(0));
    AfterStep(c, 1, r4, PublishNext(0));
    assert After(c, 1, r1).tasks == [Task(0, OPS_KEY, None, Asking)];
    assert After(c, 1, r2).tasks == [Task(0, OPS_KEY, None, Computing)];
    assert After(c, 1, r3).tasks == [Task(0, OPS_KEY, None, Published(1))];
    assert After(c, 1, r4).nodes[0].destroyed;
    var s := After(c, 1, r4 + [PublishNext(0)]);
    assert s.issued[|s.issued| - 1] == Issue(OPS_KEY, 1, true);
  }
}
