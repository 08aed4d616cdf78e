/**
 The activity feed: every node that handles an event runs the same append against
 one Redis. `SET NX` picks the node that pushes; LPUSH and LTRIM are pipelined, not
 transactional, so other nodes' commands may fall between them. A step is one Redis
 command of one append.
 */
module ActivityFeed {
  import opened Options
  import opened AdminBridge

  const ACTIVITY_LENGTH := 50
  const MARKER_MS := 60_000

  type Item = ActivityItem
  type Id = ActivityId

  /** Where one `appendActivity` call stands; `Lost` ones failed after winning or after pushing. */
  datatype Phase = Asking | Won | Pushed | Done | Beaten | LostWon | LostPushed | LostAsking

  datatype Append = Append(item: Item, phase: Phase)

  /** One executed `SET NX`: which event, when, and whether it set the marker. */
  datatype Ask = Ask(id: Id, at: int, won: bool)

  /**
   `markers` maps an event's id to its marker's expiry. `asks`, `pushes` (newest first) and
   `sinceTrim` record the history the properties speak of; no step reads them.
   */
  datatype State = State(
    now: int, markers: map<Id, int>, list: seq<Item>, appends: seq<Append>,
    asks: seq<Ask>, pushes: seq<Item>, sinceTrim: nat)

  datatype Step =
    | Wait(ms: nat)
    | Handle(item: Item)
    | SetNx(t: nat)
    | LPush(t: nat)
    | LTrim(t: nat)
    | Fail(t: nat)

  const INIT := State(0, map[], [], [], [], [], 0)

  predicate At(s: State, t: nat, phase: Phase) {
    t < |s.appends| && s.appends[t].phase == phase
  }

  function Advance(s: State, t: nat, phase: Phase): State
    requires t < |s.appends|
  {
    s.(appends := s.appends[t := Append(s.appends[t].item, phase)])
  }

  predicate Marked(s: State, id: Id) {
    id in s.markers && s.now < s.markers[id]
  }

  function Head(list: seq<Item>): seq<Item> {
    if |list| <= ACTIVITY_LENGTH then list else list[..ACTIVITY_LENGTH]
  }

  /** One command. A command no append is about to issue changes nothing. */
  function Next(s: State, step: Step): State {
    match step
    case Wait(ms) => s.(now := s.now + ms)
    case Handle(item) => s.(appends := s.appends + [Append(item, Asking)])
    case SetNx(t) =>
      if !At(s, t, Asking) then s
      else
        var id := s.appends[t].item.id;
        if Marked(s, id) then Advance(s, t, Beaten).(asks := s.asks + [Ask(id, s.now, false)])
        else Advance(s, t, Won).(markers := s.markers[id := s.now + MARKER_MS], asks := s.asks + [Ask(id, s.now, true)])
    case LPush(t) =>
      if !At(s, t, Won) then s
      else
        var item := s.appends[t].item;
        Advance(s, t, Pushed).(list := [item] + s.list, pushes := [item] + s.pushes, sinceTrim := s.sinceTrim + 1)
    case LTrim(t) =>
      if !At(s, t, Pushed) then s
      else Advance(s, t, Done).(list := Head(s.list), sinceTrim := 0)
    case Fail(t) =>
      if At(s, t, Asking) then Advance(s, t, LostAsking)
      else if At(s, t, Won) then Advance(s, t, LostWon)
      else if At(s, t, Pushed) then Advance(s, t, LostPushed)
      else s
  }

  function After(steps: seq<Step>): State {
    if steps == [] then INIT else Next(After(steps[..|steps| - 1]), steps[|steps| - 1])
  }

  // ---- counting appends by phase --------------------------------------------------------

  /** Which appends are counted: all, or those of one event. */
  function One(a: Append, phase: Phase, only: Option<Id>): nat {
    if a.phase == phase && (only.None? || only.value == a.item.id) then 1 else 0
  }

  function Count(appends: seq<Append>, phase: Phase, only: Option<Id>): nat {
    if appends == [] then 0
    else Count(appends[..|appends| - 1], phase, only) + One(appends[|appends| - 1], phase, only)
  }

  lemma {:induction false} CountMove(appends: seq<Append>, t: nat, b: Append, phase: Phase, only: Option<Id>)
    requires t < |appends|
    ensures Count(appends[t := b], phase, only) + One(appends[t], phase, only)
         == Count(appends, phase, only) + One(b, phase, only)
  {
    var n := |appends| - 1;
    if t < n {
      CountMove(appends[..n], t, b, phase, only);
      assert appends[t := b][..n] == appends[..n][t := b];
    } else {
      assert appends[t := b][..n] == appends[..n];
    }
  }

  /** What a step does to the appends: nothing, one more, or one moved. */
  lemma CountStep(s: State, step: Step, phase: Phase, only: Option<Id>)
    ensures var s' := Next(s, step);
            var was, now := Count(s.appends, phase, only), Count(s'.appends, phase, only);
            && (step.Handle? ==> now == was + One(Append(step.item, Asking), phase, only))
            && (!step.Handle? && !step.Wait? && step.t < |s.appends| ==>
                  && step.t < |s'.appends|
                  && now + One(s.appends[step.t], phase, only) == was + One(s'.appends[step.t], phase, only))
            && (s'.appends == s.appends ==> now == was)
  {
    var s' := Next(s, step);
    if step.Handle? {
      assert s'.appends[..|s.appends|] == s.appends;
    } else if !step.Wait? && step.t < |s.appends| {
      assert s'.appends == s.appends[step.t := s'.appends[step.t]];
      CountMove(s.appends, step.t, s'.appends[step.t], phase, only);
    }
  }

  // ---- the list --------------------------------------------------------------------------

  /** Pushes whose own trim has not run, because it is still to come or was lost. */
  function Untrimmed(s: State): nat {
    Count(s.appends, Pushed, None) + Count(s.appends, LostPushed, None)
  }

  /** The list is the newest part of the pushes: all of them, or at least 50 and at most 50 more than came since a trim. */
  ghost predicate ShowsNewest(list: seq<Item>, pushes: seq<Item>, sinceTrim: nat) {
    && |list| <= |pushes|
    && list == pushes[..|list|]
    && (|list| >= ACTIVITY_LENGTH || list == pushes)
    && |list| <= ACTIVITY_LENGTH + sinceTrim
  }

  ghost predicate ListInv(s: State) {
    ShowsNewest(s.list, s.pushes, s.sinceTrim) && s.sinceTrim <= Untrimmed(s)
  }

  lemma PushShows(list: seq<Item>, pushes: seq<Item>, sinceTrim: nat, item: Item)
    requires ShowsNewest(list, pushes, sinceTrim)
    ensures ShowsNewest([item] + list, [item] + pushes, sinceTrim + 1)
  {
    assert ([item] + pushes)[..|list| + 1] == [item] + pushes[..|list|];
  }

  lemma TrimShows(list: seq<Item>, pushes: seq<Item>, sinceTrim: nat)
    requires ShowsNewest(list, pushes, sinceTrim)
    ensures ShowsNewest(Head(list), pushes, 0)
  {
  }

  /** Only a push and a trim touch the list. */
  lemma NextList(s: State, step: Step)
    ensures var s' := Next(s, step);
            || (s'.list == s.list && s'.pushes == s.pushes && s'.sinceTrim == s.sinceTrim)
            || (step.LPush? && At(s, step.t, Won) && s'.sinceTrim == s.sinceTrim + 1
                && s'.list == [s.appends[step.t].item] + s.list && s'.pushes == [s.appends[step.t].item] + s.pushes)
            || (step.LTrim? && At(s, step.t, Pushed) && s'.list == Head(s.list) && s'.pushes == s.pushes && s'.sinceTrim == 0)
  {
  }

  lemma UntrimmedStep(s: State, step: Step)
    requires s.sinceTrim <= Untrimmed(s)
    ensures Next(s, step).sinceTrim <= Untrimmed(Next(s, step))
  {
    CountStep(s, step, Pushed, None);
    CountStep(s, step, LostPushed, None);
  }

  lemma ListStep(s: State, step: Step)
    requires ListInv(s)
    ensures ListInv(Next(s, step))
  {
    NextList(s, step);
    UntrimmedStep(s, step);
    if step.LPush? && At(s, step.t, Won) {
      PushShows(s.list, s.pushes, s.sinceTrim, s.appends[step.t].item);
    } else if step.LTrim? && At(s, step.t, Pushed) {
      TrimShows(s.list, s.pushes, s.sinceTrim);
    }
  }

  lemma {:induction false} ListReachable(steps: seq<Step>)
    ensures ListInv(After(steps))
  {
    if steps == [] {
    } else {
      ListReachable(steps[..|steps| - 1]);
      ListStep(After(steps[..|steps| - 1]), steps[|steps| - 1]);
    }
  }

  /**
   Under any interleaving of any number of appends, with failures anywhere: the list is
   a prefix of the newest-first push history, never shorter than 50 while there is more
   to show, and over 50 by no more than the pushes not yet trimmed; so with none left
   untrimmed it is exactly the newest 50.
   */
  lemma FeedIsNewest(steps: seq<Step>)
    ensures var s := After(steps);
            && s.list <= s.pushes
            && (|s.list| < 50 ==> s.list == s.pushes)
            && |s.list| <= 50 + Untrimmed(s)
            && (Untrimmed(s) == 0 ==> s.list == if |s.pushes| <= 50 then s.pushes else s.pushes[..50])
  {
    ListReachable(steps);
    FeedIn(After(steps));
  }

  lemma FeedIn(s: State)
    requires ListInv(s)
    ensures s.list <= s.pushes
    ensures |s.list| < ACTIVITY_LENGTH ==> s.list == s.pushes
    ensures |s.list| <= ACTIVITY_LENGTH + Untrimmed(s)
    ensures Untrimmed(s) == 0 ==> s.list == Head(s.pushes)
  {
  }

  // ---- once per event ---------------------------------------------------------------------

  function LastWin(asks: seq<Ask>, id: Id): (w: int) {
    if asks == [] then 0
    else if asks[|asks| - 1].id == id && asks[|asks| - 1].won then asks[|asks| - 1].at
    else LastWin(asks[..|asks| - 1], id)
  }

  function Wins(asks: seq<Ask>, id: Id): nat {
    if asks == [] then 0
    else Wins(asks[..|asks| - 1], id) + if asks[|asks| - 1].id == id && asks[|asks| - 1].won then 1 else 0
  }

  /** Every `SET NX` of the history answered as Redis answers: won unless the last winner's marker still lived. */
  ghost predicate Answered(asks: seq<Ask>) {
    asks != [] ==>
      var before, last := asks[..|asks| - 1], asks[|asks| - 1];
      && Answered(before)
      && (forall i :: 0 <= i < |before| ==> before[i].at <= last.at)
      && (last.won <==> Wins(before, last.id) == 0 || last.at >= LastWin(before, last.id) + MARKER_MS)
  }

  /** The markers are those the last winners set. */
  ghost predicate Marks(markers: map<Id, int>, asks: seq<Ask>) {
    forall id :: MarksOne(markers, asks, id)
  }

  ghost predicate MarksOne(markers: map<Id, int>, asks: seq<Ask>, id: Id) {
    && (id in markers <==> Wins(asks, id) > 0)
    && (id in markers ==> markers[id] == LastWin(asks, id) + MARKER_MS)
  }

  ghost predicate MarkersInv(s: State) {
    && Answered(s.asks)
    && (forall i :: 0 <= i < |s.asks| ==> s.asks[i].at <= s.now)
    && Marks(s.markers, s.asks)
  }

  lemma WinsStep(asks: seq<Ask>, a: Ask, id: Id)
    ensures Wins(asks + [a], id) == Wins(asks, id) + if a.id == id && a.won then 1 else 0
    ensures LastWin(asks + [a], id) == if a.id == id && a.won then a.at else LastWin(asks, id)
  {
    assert (asks + [a])[..|asks + [a]| - 1] == asks;
  }

  lemma AnsweredStep(asks: seq<Ask>, a: Ask)
    requires Answered(asks)
    requires forall i :: 0 <= i < |asks| ==> asks[i].at <= a.at
    requires a.won <==> Wins(asks, a.id) == 0 || a.at >= LastWin(asks, a.id) + MARKER_MS
    ensures Answered(asks + [a])
  {
    assert (asks + [a])[..|asks + [a]| - 1] == asks;
  }

  lemma MarksStep(markers: map<Id, int>, asks: seq<Ask>, a: Ask)
    requires Marks(markers, asks)
    ensures Marks(if a.won then markers[a.id := a.at + MARKER_MS] else markers, asks + [a])
  {
    var markers' := if a.won then markers[a.id := a.at + MARKER_MS] else markers;
    forall id ensures MarksOne(markers', asks + [a], id) {
      assert MarksOne(markers, asks, id);
      WinsStep(asks, a, id);
    }
  }

  lemma AskStep(s: State, t: nat)
    requires MarkersInv(s) && At(s, t, Asking)
    ensures MarkersInv(Next(s, SetNx(t)))
  {
    var id := s.appends[t].item.id;
    var a := Ask(id, s.now, !Marked(s, id));
    NextAsk(s, t);
    assert MarksOne(s.markers, s.asks, id);
    AnsweredStep(s.asks, a);
    MarksStep(s.markers, s.asks, a);
  }

  /** What a `SET NX` changes. */
  lemma NextAsk(s: State, t: nat)
    requires At(s, t, Asking)
    ensures var id, s' := s.appends[t].item.id, Next(s, SetNx(t));
            var a := Ask(id, s.now, !Marked(s, id));
            && s'.asks == s.asks + [a] && s'.now == s.now
            && s'.markers == if a.won then s.markers[id := a.at + MARKER_MS] else s.markers
  {
  }

  lemma MarkersStep(s: State, step: Step)
    requires MarkersInv(s)
    ensures MarkersInv(Next(s, step))
  {
    if step.SetNx? && At(s, step.t, Asking) {
      AskStep(s, step.t);
    }
  }

  /** How often an event was pushed. */
  function PushesOf(pushes: seq<Item>, id: Id): nat {
    if pushes == [] then 0 else PushesOf(pushes[1..], id) + if pushes[0].id == id then 1 else 0
  }

  /** Every win of an event is a push done, a push to come, or a push lost. */
  ghost predicate PushesInv(s: State, id: Id) {
    PushesOf(s.pushes, id) + Count(s.appends, Won, Some(id)) + Count(s.appends, LostWon, Some(id))
    == Wins(s.asks, id)
  }

  lemma PushStep(s: State, t: nat, id: Id)
    requires PushesInv(s, id) && At(s, t, Won)
    ensures PushesInv(Next(s, LPush(t)), id)
  {
    CountStep(s, LPush(t), Won, Some(id));
    CountStep(s, LPush(t), LostWon, Some(id));
    assert ([s.appends[t].item] + s.pushes)[1..] == s.pushes;
  }

  lemma WinStep(s: State, t: nat, id: Id)
    requires PushesInv(s, id) && At(s, t, Asking)
    ensures PushesInv(Next(s, SetNx(t)), id)
  {
    CountStep(s, SetNx(t), Won, Some(id));
    CountStep(s, SetNx(t), LostWon, Some(id));
    var asks := Next(s, SetNx(t)).asks;
    assert asks[..|asks| - 1] == s.asks;
  }

  lemma PushesStep(s: State, step: Step, id: Id)
    requires PushesInv(s, id)
    ensures PushesInv(Next(s, step), id)
  {
    if step.SetNx? && At(s, step.t, Asking) {
      WinStep(s, step.t, id);
    } else if step.LPush? && At(s, step.t, Won) {
      PushStep(s, step.t, id);
    } else {
      CountStep(s, step, Won, Some(id));
      CountStep(s, step, LostWon, Some(id));
    }
  }

  lemma {:induction false} OnceReachable(steps: seq<Step>, id: Id)
    ensures MarkersInv(After(steps)) && PushesInv(After(steps), id)
  {
    if steps == [] {
    } else {
      OnceReachable(steps[..|steps| - 1], id);
      MarkersStep(After(steps[..|steps| - 1]), steps[|steps| - 1]);
      PushesStep(After(steps[..|steps| - 1]), steps[|steps| - 1], id);
    }
  }

  /** The first ask about an event. */
  ghost predicate IsFirst(asks: seq<Ask>, i: nat) {
    i < |asks| && forall j :: 0 <= j < i ==> asks[j].id != asks[i].id
  }

  /** All asks about an event came before a marker set by the first of them expired. */
  ghost predicate WithinMarker(asks: seq<Ask>, i: nat)
    requires i < |asks|
  {
    forall j :: 0 <= j < |asks| && asks[j].id == asks[i].id ==> asks[j].at < asks[i].at + 60_000
  }

  lemma {:induction false} NoAskNoWin(asks: seq<Ask>, id: Id)
    requires forall j :: 0 <= j < |asks| ==> asks[j].id != id
    ensures Wins(asks, id) == 0
  {
    if asks == [] {
    } else {
      NoAskNoWin(asks[..|asks| - 1], id);
    }
  }

  /**
   In a history answered by Redis, the first ask wins; it stays the only win exactly
   while every ask about the event falls within the marker's life.
   */
  lemma {:induction false} OneWinIff(asks: seq<Ask>, i: nat)
    requires Answered(asks) && IsFirst(asks, i)
    ensures Wins(asks, asks[i].id) >= 1
    ensures Wins(asks, asks[i].id) == 1 <==> WithinMarker(asks, i)
    ensures Wins(asks, asks[i].id) == 1 ==> LastWin(asks, asks[i].id) == asks[i].at
    ensures LastWin(asks, asks[i].id) >= asks[i].at
  {
    var n := |asks| - 1;
    var before, id := asks[..n], asks[i].id;
    if i == n {
      NoAskNoWin(before, id);
    } else {
      assert before[i] == asks[i];
      OneWinIff(before, i);
      assert forall j :: 0 <= j < n ==> before[j] == asks[j];
      assert asks[n].at >= before[i].at;
    }
  }

  /**
   Once per event, cluster-wide: in every reachable state, an event some node has asked
   about has been won exactly once if and only if all those asks fell within 60 s of the
   first; and, with no winner still to push or lost before pushing, that is how often the
   event was pushed.
   */
  lemma PushedOnceIff(steps: seq<Step>, i: nat)
    requires IsFirst(After(steps).asks, i)
    ensures var s := After(steps);
            var id := s.asks[i].id;
            && PushesOf(s.pushes, id) <= Wins(s.asks, id)
            && (Wins(s.asks, id) == 1 <==> WithinMarker(s.asks, i))
            && (Count(s.appends, Won, Some(id)) == 0 && Count(s.appends, LostWon, Some(id)) == 0 ==>
                  (PushesOf(s.pushes, id) == 1 <==> WithinMarker(s.asks, i)))
  {
    OnceReachable(steps, After(steps).asks[i].id);
    OneWinIff(After(steps).asks, i);
  }

  /** Two nodes, the second a minute behind the first. */
  function SlowNode(item: Item): seq<Step> {
    [] + [Handle(item)] + [SetNx(0)] + [LPush(0)] + [Wait(MARKER_MS)] + [Handle(item)] + [SetNx(1)] + [LPush(1)]
  }

  /** The slow node does push the event again. */
  lemma ASlowNodePushesAgain(item: Item)
    ensures After(SlowNode(item)).pushes == [item, item]
  {
    var r1: seq<Step> := [] + [Handle(item)];
    var r2 := r1 + [SetNx(0)];
    var r3 := r2 + [LPush(0)];
    var r4 := r3 + [Wait(MARKER_MS)];
    var r5 := r4 + [Handle(item)];
    var r6 := r5 + [SetNx(1)];
    AfterStep([], Handle(item));
    AfterStep(r1, SetNx(0));
    AfterStep(r2, LPush(0));
    assert After(r3).pushes == [item];
    AfterStep(r3, Wait(MARKER_MS));
    AfterStep(r4, Handle(item));
    AfterStep(r5, SetNx(1));
    AfterStep(r6, LPush(1));
  }

  lemma AfterStep(steps: seq<Step>, step: Step)
    ensures After(steps + [step]) == Next(After(steps), step)
  {
    assert (steps + [step])[..|steps|] == steps;
  }
}
