/**
 The simulator's optimistic booking advance: it reads a status, then updates only if
 the row still holds it. Any number of simulators run among the real actors; a step is
 one statement or transaction.
 */
module BookingAdvance {
  import opened Options

  datatype Status =
    | Searching | Assigned | EnRoute | Arrived | InProgress | Completed
    | Disputed | Paid | Cancelled | NoDriversFound | Refunded

  /** The simulator's forward path. */
  function NextStatus(s: Status): Option<Status> {
    match s
    case Assigned => Some(EnRoute)
    case EnRoute => Some(Arrived)
    case Arrived => Some(InProgress)
    case InProgress => Some(Completed)
    case _ => None
  }

  /** The booking state machine's table. */
  predicate Legal(from: Status, to: Status) {
    match from
    case Searching => to in {Assigned, NoDriversFound, Cancelled}
    case Assigned => to in {EnRoute, Arrived, Searching, Cancelled}
    case EnRoute => to in {Arrived, Searching, Cancelled}
    case Arrived => to in {InProgress, Searching, Cancelled}
    case InProgress => to in {Completed, Disputed, Cancelled}
    case Completed => to in {Paid, Disputed}
    case Disputed => to in {Completed, Paid, Cancelled}
    case Paid => to in {Refunded, Disputed}
    case Cancelled => false
    case NoDriversFound => to in {Searching, Cancelled}
    case Refunded => false
  }

  /** How far along the forward path a status is. */
  function Rank(s: Status): nat {
    match s
    case Searching => 0
    case NoDriversFound => 0
    case Assigned => 1
    case EnRoute => 2
    case Arrived => 3
    case InProgress => 4
    case Completed => 5
    case Disputed => 6
    case Paid => 7
    case Refunded => 8
    case Cancelled => 9
  }

  /** A row and its status history, first status first. */
  datatype Booking = Booking(status: Status, otpVerified: bool, fleetId: Option<string>, history: seq<Status>)

  datatype Event = Event(fleetId: string, bookingId: nat, status: Status)

  datatype Sim =
    | Idle
    | Picked(id: nat, from: Status, fleetId: string)
    | Committed(event: Event)

  /** One status replaced by another. */
  datatype Move = Move(bookingId: nat, from: Status, to: Status)

  /**
   `commits` and `published` record what the simulators did; `moves` are the status changes
   of their commits, and `acts` those the actors wrote.
   */
  datatype State = State(
    bookings: map<nat, Booking>, sims: seq<Sim>, commits: seq<Event>, published: seq<Event>,
    moves: seq<Move>, acts: seq<Move>)

  datatype Step =
    | Create(id: nat, fleetId: Option<string>)
    | Act(id: nat, to: Status)
    | Spawn
    | Pick(sim: nat, id: nat)
    | Commit(sim: nat)
    | Publish(sim: nat)
    | Drop(sim: nat)

  const INIT := State(map[], [], [], [], [], [])

  function Write(b: Booking, to: Status): Booking {
    b.(status := to, otpVerified := b.otpVerified || to == InProgress, history := b.history + [to])
  }

  /** What the real actors may do; the simulator has no say in it. */
  type Rule = (Status, Status) -> bool

  function Next(rule: Rule, s: State, step: Step): State {
    match step
    case Create(id, fleetId) =>
      if id in s.bookings then s else s.(bookings := s.bookings[id := Booking(Searching, false, fleetId, [Searching])])
    case Act(id, to) =>
      if id !in s.bookings || !rule(s.bookings[id].status, to) then s
      else s.(bookings := s.bookings[id := Write(s.bookings[id], to)], acts := s.acts + [Move(id, s.bookings[id].status, to)])
    case Spawn => s.(sims := s.sims + [Idle])
    case Pick(sim, id) =>
      if sim >= |s.sims| || !s.sims[sim].Idle? || id !in s.bookings then s
      else
        var b := s.bookings[id];
        if NextStatus(b.status).None? || b.fleetId.None? then s
        else s.(sims := s.sims[sim := Picked(id, b.status, b.fleetId.value)])
    case Commit(sim) =>
      if sim >= |s.sims| || !s.sims[sim].Picked? then s
      else
        var Picked(id, from, fleetId) := s.sims[sim];
        if id !in s.bookings || s.bookings[id].status != from || NextStatus(from).None?
        then s.(sims := s.sims[sim := Idle])
        else
          var to := NextStatus(from).value;
          s.(bookings := s.bookings[id := Write(s.bookings[id], to)],
             sims := s.sims[sim := Committed(Event(fleetId, id, to))],
             commits := s.commits + [Event(fleetId, id, to)],
             moves := s.moves + [Move(id, s.bookings[id].status, to)])
    case Publish(sim) =>
      if sim >= |s.sims| || !s.sims[sim].Committed? then s
      else s.(published := s.published + [s.sims[sim].event], sims := s.sims[sim := Idle])
    case Drop(sim) =>
      if sim >= |s.sims| then s else s.(sims := s.sims[sim := Idle])
  }

  function After(rule: Rule, steps: seq<Step>): State {
    if steps == [] then INIT else Next(rule, After(rule, steps[..|steps| - 1]), steps[|steps| - 1])
  }

  // ---- histories ------------------------------------------------------------------------------

  /** Every consecutive pair of a history is an allowed move. */
  ghost predicate Follows(history: seq<Status>, allowed: Rule) {
    forall i :: 0 <= i < |history| - 1 ==> allowed(history[i], history[i + 1])
  }

  /** The simulator's moves are allowed, and the actors' rule implies they are too. */
  ghost predicate Covers(allowed: Rule, rule: Rule) {
    && (forall s, t :: rule(s, t) ==> allowed(s, t))
    && (forall s :: NextStatus(s).Some? ==> allowed(s, NextStatus(s).value))
  }

  ghost predicate RowInv(b: Booking, allowed: Rule) {
    && b.history != []
    && b.history[|b.history| - 1] == b.status
    && Follows(b.history, allowed)
    && (InProgress in b.history <==> b.otpVerified)
  }

  lemma WriteKeeps(b: Booking, to: Status, allowed: Rule)
    requires RowInv(b, allowed) && allowed(b.status, to)
    ensures RowInv(Write(b, to), allowed)
  {
    var h := b.history + [to];
    forall i | 0 <= i < |h| - 1 ensures allowed(h[i], h[i + 1]) {
      if i < |b.history| - 1 {
        assert allowed(b.history[i], b.history[i + 1]);
      }
    }
  }

  ghost predicate RowsInv(s: State, allowed: Rule) {
    forall id :: id in s.bookings ==> RowInv(s.bookings[id], allowed)
  }

  lemma RowsStep(rule: Rule, allowed: Rule, s: State, step: Step)
    requires Covers(allowed, rule) && RowsInv(s, allowed)
    ensures RowsInv(Next(rule, s, step), allowed)
  {
    match step
    case Act(id, to) =>
      if id in s.bookings && rule(s.bookings[id].status, to) {
        WriteKeeps(s.bookings[id], to, allowed);
      }
    case Commit(sim) =>
      if sim < |s.sims| && s.sims[sim].Picked? && s.sims[sim].id in s.bookings {
        var b := s.bookings[s.sims[sim].id];
        if NextStatus(b.status).Some? {
          WriteKeeps(b, NextStatus(b.status).value, allowed);
        }
      }
    case _ =>
  }

  /**
   Whatever the interleaving: if the actors keep to a rule that covers the forward path,
   so does the history of every booking; its last row is the current status; and exactly the
   bookings that were ever in progress have their code verified.
   */
  lemma {:induction false} HistoriesFollow(rule: Rule, allowed: Rule, steps: seq<Step>)
    requires Covers(allowed, rule)
    ensures RowsInv(After(rule, steps), allowed)
  {
    if steps == [] {
    } else {
      HistoriesFollow(rule, allowed, steps[..|steps| - 1]);
      RowsStep(rule, allowed, After(rule, steps[..|steps| - 1]), steps[|steps| - 1]);
    }
  }

  /** Among actors who obey the state machine, simulators keep every booking on a legal path of it. */
  lemma SimulatorsStayLegal(steps: seq<Step>)
    ensures RowsInv(After((s, t) => Legal(s, t), steps), (s, t) => Legal(s, t))
  {
    HistoriesFollow((s, t) => Legal(s, t), (s, t) => Legal(s, t), steps);
  }

  /** Among actors who only move forward, no booking's rank ever decreases. */
  lemma SimulatorsMoveForward(rule: Rule, steps: seq<Step>)
    requires forall s, t :: rule(s, t) ==> Rank(s) <= Rank(t)
    ensures RowsInv(After(rule, steps), (s, t) => Rank(s) <= Rank(t))
  {
    HistoriesFollow(rule, (s, t) => Rank(s) <= Rank(t), steps);
  }

  // ---- commits and events ---------------------------------------------------------------------

  /** How many moves of a booking go from one status to another, and how many there are of it. */
  function CountOf(moves: seq<Move>, id: nat, from: Status, to: Status): nat {
    if moves == [] then 0
    else CountOf(moves[..|moves| - 1], id, from, to) + if moves[|moves| - 1] == Move(id, from, to) then 1 else 0
  }

  function CountOn(moves: seq<Move>, id: nat): nat {
    if moves == [] then 0
    else CountOn(moves[..|moves| - 1], id) + if moves[|moves| - 1].bookingId == id then 1 else 0
  }

  /** How many consecutive pairs of a history go from one status to another. */
  function Pairs(history: seq<Status>, from: Status, to: Status): nat {
    if |history| <= 1 then 0
    else
      var n := |history| - 1;
      Pairs(history[..n], from, to) + if history[n - 1] == from && history[n] == to then 1 else 0
  }

  /** Every row beyond the first is one commit or one actor's write, and so is every pair, status by status. */
  ghost predicate Accounted(s: State, id: nat, from: Status, to: Status) {
    if id in s.bookings then
      var b := s.bookings[id];
      && b.history != [] && b.history[|b.history| - 1] == b.status
      && |b.history| == 1 + CountOn(s.moves, id) + CountOn(s.acts, id)
      && Pairs(b.history, from, to) == CountOf(s.moves, id, from, to) + CountOf(s.acts, id, from, to)
    else
      CountOn(s.moves, id) == CountOn(s.acts, id) == CountOf(s.moves, id, from, to) == CountOf(s.acts, id, from, to) == 0
  }

  lemma HistoryGrows(b: Booking, status: Status, from: Status, to: Status)
    requires b.history != [] && b.history[|b.history| - 1] == b.status
    ensures Pairs(Write(b, status).history, from, to)
         == Pairs(b.history, from, to) + if b.status == from && status == to then 1 else 0
  {
    assert (b.history + [status])[..|b.history|] == b.history;
  }

  lemma MoveCounts(moves: seq<Move>, m: Move, id: nat, from: Status, to: Status)
    ensures CountOn(moves + [m], id) == CountOn(moves, id) + if m.bookingId == id then 1 else 0
    ensures CountOf(moves + [m], id, from, to) == CountOf(moves, id, from, to) + if m == Move(id, from, to) then 1 else 0
  {
    assert (moves + [m])[..|moves|] == moves;
  }

  lemma AccountedMove(s: State, s': State, m: Move, id: nat, from: Status, to: Status)
    requires Accounted(s, id, from, to)
    requires m.bookingId in s.bookings && s.bookings[m.bookingId].status == m.from
    requires s'.bookings == s.bookings[m.bookingId := Write(s.bookings[m.bookingId], m.to)]
    requires (s'.moves == s.moves + [m] && s'.acts == s.acts) || (s'.moves == s.moves && s'.acts == s.acts + [m])
    ensures Accounted(s', id, from, to)
  {
    MoveCounts(s.moves, m, id, from, to);
    MoveCounts(s.acts, m, id, from, to);
    if m.bookingId == id {
      HistoryGrows(s.bookings[id], m.to, from, to);
    }
  }

  lemma AccountedCommitStep(rule: Rule, s: State, sim: nat, id: nat, from: Status, to: Status)
    requires Accounted(s, id, from, to)
    ensures Accounted(Next(rule, s, Commit(sim)), id, from, to)
  {
    var s' := Next(rule, s, Commit(sim));
    if s'.moves != s.moves {
      AccountedMove(s, s', s'.moves[|s.moves|], id, from, to);
    }
  }

  lemma AccountedActStep(rule: Rule, s: State, b: nat, status: Status, id: nat, from: Status, to: Status)
    requires Accounted(s, id, from, to)
    ensures Accounted(Next(rule, s, Act(b, status)), id, from, to)
  {
    if b in s.bookings && rule(s.bookings[b].status, status) {
      AccountedMove(s, Next(rule, s, Act(b, status)), Move(b, s.bookings[b].status, status), id, from, to);
    }
  }

  lemma AccountedNew(s: State, s': State, id: nat, from: Status, to: Status)
    requires Accounted(s, id, from, to) && id !in s.bookings
    requires id in s'.bookings && s'.bookings[id].history == [s'.bookings[id].status]
    requires s'.moves == s.moves && s'.acts == s.acts
    ensures Accounted(s', id, from, to)
  {
  }

  lemma AccountedSame(s: State, s': State, id: nat, from: Status, to: Status)
    requires Accounted(s, id, from, to)
    requires id in s'.bookings <==> id in s.bookings
    requires id in s.bookings ==> s'.bookings[id] == s.bookings[id]
    requires s'.moves == s.moves && s'.acts == s.acts
    ensures Accounted(s', id, from, to)
  {
  }

  lemma AccountedCreate(rule: Rule, s: State, b: nat, fleetId: Option<string>, id: nat, from: Status, to: Status)
    requires Accounted(s, id, from, to)
    ensures Accounted(Next(rule, s, Create(b, fleetId)), id, from, to)
  {
    if b !in s.bookings && b == id {
      AccountedNew(s, Next(rule, s, Create(b, fleetId)), id, from, to);
    } else {
      AccountedSame(s, Next(rule, s, Create(b, fleetId)), id, from, to);
    }
  }

  lemma AccountedStep(rule: Rule, s: State, step: Step, id: nat, from: Status, to: Status)
    requires Accounted(s, id, from, to)
    ensures Accounted(Next(rule, s, step), id, from, to)
  {
    match step
    case Create(b, fleetId) => AccountedCreate(rule, s, b, fleetId, id, from, to);
    case Act(b, status) => AccountedActStep(rule, s, b, status, id, from, to);
    case Commit(sim) => AccountedCommitStep(rule, s, sim, id, from, to);
    case _ => AccountedSame(s, Next(rule, s, step), id, from, to);
  }

  lemma {:induction false} AccountedReachable(rule: Rule, steps: seq<Step>, id: nat, from: Status, to: Status)
    ensures Accounted(After(rule, steps), id, from, to)
  {
    if steps == [] {
    } else {
      AccountedReachable(rule, steps[..|steps| - 1], id, from, to);
      AccountedStep(rule, After(rule, steps[..|steps| - 1]), steps[|steps| - 1], id, from, to);
    }
  }

  /** One status up the path assigned, en route, arrived, in progress, completed. */
  predicate IsOneUp(from: Status, to: Status) {
    1 <= Rank(from) <= 4 && Rank(to) == Rank(from) + 1
  }

  /** A commit is a move one status up, and its event says so for the booking's fleet. */
  ghost predicate Matches(s: State, m: Move, e: Event) {
    && IsOneUp(m.from, m.to)
    && e.bookingId == m.bookingId && e.status == m.to
    && m.bookingId in s.bookings && s.bookings[m.bookingId].fleetId == Some(e.fleetId)
  }

  ghost predicate KnowsFleet(s: State, sim: Sim) {
    sim.Picked? ==> sim.id in s.bookings && s.bookings[sim.id].fleetId == Some(sim.fleetId)
  }

  ghost predicate CommitsInv(s: State) {
    && |s.moves| == |s.commits|
    && (forall i :: 0 <= i < |s.commits| ==> Matches(s, s.moves[i], s.commits[i]))
    && (forall i :: 0 <= i < |s.sims| ==> KnowsFleet(s, s.sims[i]))
  }

  /** Bookings stay, under their fleet. */
  lemma FleetsStay(rule: Rule, s: State, step: Step)
    ensures forall id :: id in s.bookings ==>
              id in Next(rule, s, step).bookings && Next(rule, s, step).bookings[id].fleetId == s.bookings[id].fleetId
  {
  }

  lemma SuccessorIsOneUp(from: Status)
    ensures NextStatus(from).Some? <==> 1 <= Rank(from) <= 4
    ensures NextStatus(from).Some? ==> IsOneUp(from, NextStatus(from).value)
  {
  }

  /** A step commits nothing, or one move of the booking its simulator picked. */
  lemma NextCommit(rule: Rule, s: State, step: Step)
    ensures var s' := Next(rule, s, step);
            || (s'.commits == s.commits && s'.moves == s.moves)
            || (&& step.Commit? && step.sim < |s.sims| && s.sims[step.sim].Picked?
                && var Picked(id, from, fleetId) := s.sims[step.sim];
                && id in s.bookings && NextStatus(from).Some?
                && s'.commits == s.commits + [Event(fleetId, id, NextStatus(from).value)]
                && s'.moves == s.moves + [Move(id, from, NextStatus(from).value)])
  {
  }

  lemma NextSims(rule: Rule, s: State, step: Step)
    requires forall i :: 0 <= i < |s.sims| ==> KnowsFleet(s, s.sims[i])
    ensures forall i :: 0 <= i < |Next(rule, s, step).sims| ==> KnowsFleet(Next(rule, s, step), Next(rule, s, step).sims[i])
  {
    FleetsStay(rule, s, step);
  }

  lemma CommitsStep(rule: Rule, s: State, step: Step)
    requires CommitsInv(s)
    ensures CommitsInv(Next(rule, s, step))
  {
    var s' := Next(rule, s, step);
    NextSims(rule, s, step);
    FleetsStay(rule, s, step);
    NextCommit(rule, s, step);
    forall i | 0 <= i < |s'.commits| ensures Matches(s', s'.moves[i], s'.commits[i]) {
      if i < |s.commits| {
        assert Matches(s, s.moves[i], s.commits[i]);
      } else {
        assert KnowsFleet(s, s.sims[step.sim]);
        SuccessorIsOneUp(s.sims[step.sim].from);
      }
    }
  }

  lemma {:induction false} CommitsReachable(rule: Rule, steps: seq<Step>)
    ensures CommitsInv(After(rule, steps))
  {
    if steps == [] {
    } else {
      CommitsReachable(rule, steps[..|steps| - 1]);
      CommitsStep(rule, After(rule, steps[..|steps| - 1]), steps[|steps| - 1]);
    }
  }

  /**
   In every reachable state, for every booking: its history is the creation, one row per
   commit and one per actor's write, and nothing else; and its consecutive pairs are, pair by
   pair, exactly the moves of the commits and of the actors' writes, so that every commit
   replaced the status held at that moment.
   */
  lemma HistoryIsAccounted(rule: Rule, steps: seq<Step>, id: nat, from: Status, to: Status)
    requires id in After(rule, steps).bookings
    ensures var s := After(rule, steps);
            var history := s.bookings[id].history;
            && |history| == 1 + CountOn(s.moves, id) + CountOn(s.acts, id)
            && Pairs(history, from, to) == CountOf(s.moves, id, from, to) + CountOf(s.acts, id, from, to)
  {
    AccountedReachable(rule, steps, id, from, to);
  }

  /**
   In every reachable state, every commit moved its booking exactly one status up the path
   assigned, en route, arrived, in progress, completed, never to `paid` or past a status,
   and its event names the booking, its fleet and the status it wrote.
   */
  lemma CommitsAreAdvances(rule: Rule, steps: seq<Step>, i: nat)
    requires i < |After(rule, steps).commits|
    ensures var s := After(rule, steps);
            && |s.moves| == |s.commits|
            && 1 <= Rank(s.moves[i].from) <= 4 && Rank(s.moves[i].to) == Rank(s.moves[i].from) + 1
            && s.moves[i].to != Paid
            && s.commits[i].bookingId == s.moves[i].bookingId && s.commits[i].status == s.moves[i].to
            && s.commits[i].bookingId in s.bookings
            && s.bookings[s.commits[i].bookingId].fleetId == Some(s.commits[i].fleetId)
  {
    CommitsReachable(rule, steps);
    assert Matches(After(rule, steps), After(rule, steps).moves[i], After(rule, steps).commits[i]);
  }

  // ---- a booking left alone does advance -------------------------------------------------------------

  /** A step that is not this simulator's. */
  predicate NotOf(step: Step, sim: nat) {
    match step
    case Pick(k, _) => k != sim
    case Commit(k) => k != sim
    case Publish(k) => k != sim
    case Drop(k) => k != sim
    case _ => true
  }

  function Run(rule: Rule, s: State, steps: seq<Step>): State {
    if steps == [] then s else Next(rule, Run(rule, s, steps[..|steps| - 1]), steps[|steps| - 1])
  }

  lemma {:induction false} SlotStays(rule: Rule, s: State, steps: seq<Step>, sim: nat)
    requires sim < |s.sims| && forall i :: 0 <= i < |steps| ==> NotOf(steps[i], sim)
    ensures sim < |Run(rule, s, steps).sims| && Run(rule, s, steps).sims[sim] == s.sims[sim]
  {
    if steps == [] {
    } else {
      SlotStays(rule, s, steps[..|steps| - 1], sim);
    }
  }

  /**
   From any state, an idle simulator that picks a booking of a fleet on the path below
   completed, and commits after any steps of others that leave the booking with the status
   it had, moves it one status up and has that event to publish.
   */
  lemma LeftAloneItAdvances(rule: Rule, s: State, sim: nat, id: nat, between: seq<Step>)
    requires sim < |s.sims| && s.sims[sim].Idle?
    requires id in s.bookings && s.bookings[id].fleetId.Some? && 1 <= Rank(s.bookings[id].status) <= 4
    requires forall i :: 0 <= i < |between| ==> NotOf(between[i], sim)
    requires var s1 := Run(rule, Next(rule, s, Pick(sim, id)), between);
             id in s1.bookings && s1.bookings[id].status == s.bookings[id].status
    ensures var s1 := Run(rule, Next(rule, s, Pick(sim, id)), between);
            var s2 := Next(rule, s1, Commit(sim));
            && id in s2.bookings && Rank(s2.bookings[id].status) == Rank(s.bookings[id].status) + 1
            && s2.bookings[id].history == s1.bookings[id].history + [s2.bookings[id].status]
            && sim < |s2.sims| && s2.sims[sim] == Committed(Event(s.bookings[id].fleetId.value, id, s2.bookings[id].status))
  {
    var s0 := Next(rule, s, Pick(sim, id));
    SuccessorIsOneUp(s.bookings[id].status);
    assert s0.sims[sim] == Picked(id, s.bookings[id].status, s.bookings[id].fleetId.value);
    SlotStays(rule, s0, between, sim);
  }

  function Holds(sim: Sim, e: Event): nat {
    if sim == Committed(e) then 1 else 0
  }

  /** How many simulators have committed an event and not yet published it. */
  function Waiting(sims: seq<Sim>, e: Event): nat {
    if sims == [] then 0 else Waiting(sims[..|sims| - 1], e) + Holds(sims[|sims| - 1], e)
  }

  lemma {:induction false} WaitingMove(sims: seq<Sim>, i: nat, to: Sim, e: Event)
    requires i < |sims|
    ensures Waiting(sims[i := to], e) + Holds(sims[i], e) == Waiting(sims, e) + Holds(to, e)
  {
    var n := |sims| - 1;
    if i < n {
      WaitingMove(sims[..n], i, to, e);
      assert sims[i := to][..n] == sims[..n][i := to];
    } else {
      assert sims[i := to][..n] == sims[..n];
    }
  }

  ghost predicate EventsInv(s: State, e: Event) {
    multiset(s.published)[e] + Waiting(s.sims, e) <= multiset(s.commits)[e]
  }

  /** A slot moves without an event being committed or published, but perhaps forgotten. */
  lemma ForgetKeeps(s: State, i: nat, to: Sim, e: Event)
    requires EventsInv(s, e) && i < |s.sims| && !to.Committed?
    ensures multiset(s.published)[e] + Waiting(s.sims[i := to], e) <= multiset(s.commits)[e]
  {
    WaitingMove(s.sims, i, to, e);
  }

  lemma CommitKeeps(s: State, i: nat, x: Event, e: Event)
    requires EventsInv(s, e) && i < |s.sims|
    ensures multiset(s.published)[e] + Waiting(s.sims[i := Committed(x)], e) <= multiset(s.commits + [x])[e]
  {
    WaitingMove(s.sims, i, Committed(x), e);
  }

  lemma PublishKeeps(s: State, i: nat, e: Event)
    requires EventsInv(s, e) && i < |s.sims| && s.sims[i].Committed?
    ensures multiset(s.published + [s.sims[i].event])[e] + Waiting(s.sims[i := Idle], e) <= multiset(s.commits)[e]
  {
    WaitingMove(s.sims, i, Idle, e);
  }

  lemma SpawnKeeps(sims: seq<Sim>, e: Event)
    ensures Waiting(sims + [Idle], e) == Waiting(sims, e)
  {
    assert (sims + [Idle])[..|sims|] == sims;
  }

  lemma EventsStep(rule: Rule, s: State, step: Step, e: Event)
    requires EventsInv(s, e)
    ensures EventsInv(Next(rule, s, step), e)
  {
    match step
    case Create(_, _) =>
    case Act(_, _) =>
    case Spawn => SpawnKeeps(s.sims, e);
    case Pick(sim, id) =>
      if sim < |s.sims| && id in s.bookings && s.bookings[id].fleetId.Some? {
        ForgetKeeps(s, sim, Picked(id, s.bookings[id].status, s.bookings[id].fleetId.value), e);
      }
    case Commit(sim) =>
      if sim < |s.sims| && s.sims[sim].Picked? {
        var Picked(id, from, fleetId) := s.sims[sim];
        ForgetKeeps(s, sim, Idle, e);
        if NextStatus(from).Some? {
          CommitKeeps(s, sim, Event(fleetId, id, NextStatus(from).value), e);
        }
      }
    case Publish(sim) => if sim < |s.sims| && s.sims[sim].Committed? { PublishKeeps(s, sim, e); }
    case Drop(sim) => if sim < |s.sims| { ForgetKeeps(s, sim, Idle, e); }
  }

  lemma {:induction false} EventsReachable(rule: Rule, steps: seq<Step>, e: Event)
    ensures EventsInv(After(rule, steps), e)
  {
    if steps == [] {
    } else {
      EventsReachable(rule, steps[..|steps| - 1], e);
      EventsStep(rule, After(rule, steps[..|steps| - 1]), steps[|steps| - 1], e);
    }
  }

  /** In every reachable state, every published event matches a commit, and no commit was published twice. */
  lemma EventsMatchCommits(rule: Rule, steps: seq<Step>)
    ensures multiset(After(rule, steps).published) <= multiset(After(rule, steps).commits)
  {
    forall e ensures multiset(After(rule, steps).published)[e] <= multiset(After(rule, steps).commits)[e] {
      EventsReachable(rule, steps, e);
    }
  }
}
