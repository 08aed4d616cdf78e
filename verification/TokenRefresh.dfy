/**
 The proxy's call to the upstream API with one refresh and one retry, for any number
 of concurrent requests sharing one map of refreshes in flight. A step is the code of
 one request between two awaits, or one upstream answer.
 */
module TokenRefresh {
  import opened Options

  datatype Tokens = Tokens(access: string, refresh: string)

  /** What a request brings: an absent or empty cookie is no token. */
  datatype Call = Call(url: string, method_: string, body: Option<string>, access: string, refresh: string)

  datatype Send = Send(url: string, method_: string, body: Option<string>, bearer: string)

  /** The refresh endpoint's answer; fields that are missing are empty. */
  datatype RefreshAnswer = Threw | Http(ok: bool, access: string, refresh: string)

  function Rotation(answer: RefreshAnswer): Option<Tokens> {
    if answer.Threw? || !answer.ok || answer.access == "" || answer.refresh == "" then None
    else Some(Tokens(answer.access, answer.refresh))
  }

  /** An answer gives tokens exactly when it is a success that has both. */
  lemma RotationIff(answer: RefreshAnswer, tokens: Tokens)
    ensures Rotation(answer) == Some(tokens) <==>
              answer == Http(true, tokens.access, tokens.refresh) && tokens.access != "" && tokens.refresh != ""
  {
  }

  /** One upstream refresh: who started it, and its answer once there is one. */
  datatype Attempt = Attempt(token: string, initiator: nat, result: Option<Option<Tokens>>, cleaned: bool)

  datatype Outcome =
    | NoSession
    | Expired
    | Responded(status: int, rotated: Option<Tokens>)
    | NetworkError

  datatype Phase =
    | Fresh
    | AwaitFirst
    | AwaitRefresh(attempt: nat)
    | AwaitSecond(tokens: Tokens)
    | Finished(outcome: Outcome)

  /** A request under way. `sends`, the two statuses and `joined` record what it has done. */
  datatype Request = Request(call: Call, phase: Phase, sends: seq<Send>, firstStatus: Option<int>, joined: Option<nat>, secondStatus: Option<int>)

  datatype State = State(inFlight: map<string, nat>, attempts: seq<Attempt>, requests: seq<Request>)

  datatype Step =
    | Arrive(call: Call)
    | Start(r: nat)
    | FirstAnswer(r: nat, status: int)
    | RefreshAnswered(a: nat, answer: RefreshAnswer)
    | Cleanup(a: nat)
    | Resume(r: nat)
    | SecondAnswer(r: nat, status: int)
    | NetworkFails(r: nat)

  const INIT := State(map[], [], [])

  function SendWith(call: Call, bearer: string): Send {
    Send(call.url, call.method_, call.body, bearer)
  }

  function Set(s: State, r: nat, q: Request): State
    requires r < |s.requests|
  {
    s.(requests := s.requests[r := q])
  }

  /** After a 401: join the refresh in flight for this token, or start one. */
  function Refresh(s: State, r: nat): State
    requires r < |s.requests|
  {
    var q := s.requests[r].(firstStatus := Some(401));
    var token := q.call.refresh;
    if token == "" then Set(s, r, q.(phase := Finished(Expired)))
    else if token in s.inFlight then
      Set(s, r, q.(phase := AwaitRefresh(s.inFlight[token]), joined := Some(s.inFlight[token])))
    else
      var a := |s.attempts|;
      Set(s, r, q.(phase := AwaitRefresh(a), joined := Some(a)))
      .(attempts := s.attempts + [Attempt(token, r, None, false)], inFlight := s.inFlight[token := a])
  }

  /** The request that started an attempt runs its cleanup before it goes on. */
  predicate MayResume(s: State, r: nat) {
    && r < |s.requests|
    && s.requests[r].phase.AwaitRefresh?
    && var a := s.requests[r].phase.attempt;
       a < |s.attempts| && s.attempts[a].result.Some? && (s.attempts[a].initiator == r ==> s.attempts[a].cleaned)
  }

  /** One step; a step that is not possible changes nothing. */
  function Next(s: State, step: Step): State {
    match step
    case Arrive(call) => s.(requests := s.requests + [Request(call, Fresh, [], None, None, None)])
    case Start(r) =>
      if r >= |s.requests| || !s.requests[r].phase.Fresh? then s
      else
        var q := s.requests[r];
        if q.call.access == "" then Set(s, r, q.(phase := Finished(NoSession)))
        else Set(s, r, q.(phase := AwaitFirst, sends := [SendWith(q.call, q.call.access)]))
    case FirstAnswer(r, status) =>
      if r >= |s.requests| || !s.requests[r].phase.AwaitFirst? then s
      else if status == 401 then Refresh(s, r)
      else Set(s, r, s.requests[r].(phase := Finished(Responded(status, None)), firstStatus := Some(status)))
    case RefreshAnswered(a, answer) =>
      if a >= |s.attempts| || s.attempts[a].result.Some? then s
      else s.(attempts := s.attempts[a := s.attempts[a].(result := Some(Rotation(answer)))])
    case Cleanup(a) =>
      if a >= |s.attempts| || s.attempts[a].result.None? || s.attempts[a].cleaned then s
      else s.(attempts := s.attempts[a := s.attempts[a].(cleaned := true)], inFlight := s.inFlight - {s.attempts[a].token})
    case Resume(r) =>
      if !MayResume(s, r) then s
      else
        var q := s.requests[r];
        var rotated := s.attempts[q.phase.attempt].result.value;
        if rotated.None? then Set(s, r, q.(phase := Finished(Expired)))
        else
          Set(s, r, q.(phase := AwaitSecond(rotated.value), sends := q.sends + [SendWith(q.call, rotated.value.access)]))
    case SecondAnswer(r, status) =>
      if r >= |s.requests| || !s.requests[r].phase.AwaitSecond? then s
      else Set(s, r, s.requests[r].(phase := Finished(Responded(status, Some(s.requests[r].phase.tokens))), secondStatus := Some(status)))
    case NetworkFails(r) =>
      if r >= |s.requests| || !(s.requests[r].phase.AwaitFirst? || s.requests[r].phase.AwaitSecond?) then s
      else Set(s, r, s.requests[r].(phase := Finished(NetworkError)))
  }

  function After(steps: seq<Step>): State {
    if steps == [] then INIT else Next(After(steps[..|steps| - 1]), steps[|steps| - 1])
  }

  // ---- single flight ----------------------------------------------------------------------

  /** An attempt is in the map exactly from its start to its initiator's cleanup. */
  ghost predicate FlightInv(s: State) {
    Tracked(s.attempts, s.inFlight)
  }

  ghost predicate Tracked(attempts: seq<Attempt>, inFlight: map<string, nat>) {
    && (forall a :: 0 <= a < |attempts| && !attempts[a].cleaned ==>
          attempts[a].token in inFlight && inFlight[attempts[a].token] == a)
    && (forall t :: t in inFlight ==>
          inFlight[t] < |attempts| && attempts[inFlight[t]].token == t && !attempts[inFlight[t]].cleaned)
    && (forall a :: 0 <= a < |attempts| && attempts[a].cleaned ==> attempts[a].result.Some?)
    && (forall a, b :: 0 <= a < b < |attempts| && attempts[a].token == attempts[b].token ==> attempts[a].cleaned)
  }

  lemma TrackedStart(attempts: seq<Attempt>, inFlight: map<string, nat>, token: string, r: nat)
    requires Tracked(attempts, inFlight) && token !in inFlight
    ensures Tracked(attempts + [Attempt(token, r, None, false)], inFlight[token := |attempts|])
  {
  }

  lemma TrackedAnswer(attempts: seq<Attempt>, inFlight: map<string, nat>, a: nat, result: Option<Tokens>)
    requires Tracked(attempts, inFlight) && a < |attempts|
    ensures Tracked(attempts[a := attempts[a].(result := Some(result))], inFlight)
  {
  }

  lemma TrackedCleanup(attempts: seq<Attempt>, inFlight: map<string, nat>, a: nat)
    requires Tracked(attempts, inFlight) && a < |attempts|
    requires attempts[a].result.Some? && !attempts[a].cleaned
    ensures Tracked(attempts[a := attempts[a].(cleaned := true)], inFlight - {attempts[a].token})
  {
  }

  lemma FlightStep(s: State, step: Step)
    requires FlightInv(s)
    ensures FlightInv(Next(s, step))
  {
    var s' := Next(s, step);
    if s'.attempts != s.attempts || s'.inFlight != s.inFlight {
      match step
      case FirstAnswer(r, _) => TrackedStart(s.attempts, s.inFlight, s.requests[r].call.refresh, r);
      case RefreshAnswered(a, answer) => TrackedAnswer(s.attempts, s.inFlight, a, Rotation(answer));
      case Cleanup(a) => TrackedCleanup(s.attempts, s.inFlight, a);
      case _ =>
    }
  }

  lemma {:induction false} FlightReachable(steps: seq<Step>)
    ensures FlightInv(After(steps))
  {
    if steps == [] {
    } else {
      FlightReachable(steps[..|steps| - 1]);
      FlightStep(After(steps[..|steps| - 1]), steps[|steps| - 1]);
    }
  }

  /**
   Under every interleaving, of two refreshes with one token the earlier has been answered
   and cleaned up by the time the later exists: at most one is ever outstanding.
   */
  lemma SingleFlight(steps: seq<Step>, a: nat, b: nat)
    requires a < b < |After(steps).attempts|
    requires After(steps).attempts[a].token == After(steps).attempts[b].token
    ensures After(steps).attempts[a].cleaned && After(steps).attempts[a].result.Some?
  {
    FlightReachable(steps);
  }

  /** A request that draws a 401 sends its token upstream exactly when every earlier refresh with it was cleaned up. */
  lemma RefreshesIff(steps: seq<Step>, r: nat)
    requires r < |After(steps).requests|
    requires After(steps).requests[r].phase.AwaitFirst? && After(steps).requests[r].call.refresh != ""
    ensures var s := After(steps);
            |Next(s, FirstAnswer(r, 401)).attempts| > |s.attempts| <==>
            forall a :: 0 <= a < |s.attempts| && s.attempts[a].token == s.requests[r].call.refresh ==> s.attempts[a].cleaned
  {
    FlightReachable(steps);
  }

  /** A cleanup finds its own attempt in the map and removes that entry only; every other attempt not yet cleaned up is still found. */
  lemma CleanupRemovesItsOwn(steps: seq<Step>, a: nat)
    requires a < |After(steps).attempts|
    requires After(steps).attempts[a].result.Some? && !After(steps).attempts[a].cleaned
    ensures var s := After(steps);
            var token := s.attempts[a].token;
            && token in s.inFlight && s.inFlight[token] == a
            && Next(s, Cleanup(a)).inFlight == s.inFlight - {token}
            && forall b :: 0 <= b < |s.attempts| && b != a && !s.attempts[b].cleaned ==>
                 && s.attempts[b].token in Next(s, Cleanup(a)).inFlight
                 && Next(s, Cleanup(a)).inFlight[s.attempts[b].token] == b
  {
    FlightReachable(steps);
  }

  // ---- what a request does -------------------------------------------------------------------

  /** The request waits for, or was answered by, an attempt for its own refresh token. */
  ghost predicate JoinedOwn(s: State, q: Request) {
    && q.joined.Some? && q.joined.value < |s.attempts|
    && q.firstStatus == Some(401)
    && q.call.refresh != ""
    && s.attempts[q.joined.value].token == q.call.refresh
  }

  /** Field by field: the request's own url, method and body, under this token. */
  ghost predicate IsSend(q: Request, i: nat, bearer: string) {
    && i < |q.sends|
    && q.sends[i].url == q.call.url && q.sends[i].method_ == q.call.method_ && q.sends[i].body == q.call.body
    && q.sends[i].bearer == bearer
  }

  ghost predicate Sent(q: Request, rotated: Option<Tokens>) {
    && q.call.access != ""
    && |q.sends| == (if rotated.Some? then 2 else 1)
    && IsSend(q, 0, q.call.access)
    && (rotated.Some? ==> IsSend(q, 1, rotated.value.access))
  }

  /** The refresh this request took part in gave these tokens. */
  ghost predicate Rotated(s: State, q: Request, result: Option<Tokens>) {
    JoinedOwn(s, q) && s.attempts[q.joined.value].result == Some(result)
  }

  ghost predicate RequestInv(s: State, q: Request) {
    && (q.secondStatus.Some? <==> q.phase.Finished? && q.phase.outcome.Responded? && q.phase.outcome.rotated.Some?)
    && match q.phase
       case Fresh => q.sends == [] && q.joined.None? && q.firstStatus.None?
       case AwaitFirst => Sent(q, None) && q.joined.None? && q.firstStatus.None?
       case AwaitRefresh(a) => Sent(q, None) && JoinedOwn(s, q) && q.joined == Some(a)
       case AwaitSecond(tokens) => Sent(q, Some(tokens)) && Rotated(s, q, Some(tokens))
       case Finished(NoSession) => q.call.access == "" && q.sends == [] && q.joined.None? && q.firstStatus.None?
       case Finished(Expired) =>
         Sent(q, None) && q.firstStatus == Some(401) && ((q.call.refresh == "" && q.joined.None?) || Rotated(s, q, None))
       case Finished(Responded(status, None)) =>
         Sent(q, None) && q.joined.None? && q.firstStatus == Some(status) && status != 401
       case Finished(Responded(status, Some(tokens))) =>
         Sent(q, Some(tokens)) && Rotated(s, q, Some(tokens)) && q.secondStatus == Some(status)
       case Finished(NetworkError) =>
         || (Sent(q, None) && q.joined.None? && q.firstStatus.None?)
         || (exists tokens :: Sent(q, Some(tokens)) && Rotated(s, q, Some(tokens)))
  }

  /** Attempts only gain an answer and a cleanup. */
  ghost predicate Grows(s: State, s': State) {
    && |s.attempts| <= |s'.attempts|
    && forall a :: 0 <= a < |s.attempts| ==>
         && s'.attempts[a].token == s.attempts[a].token
         && (s.attempts[a].result.Some? ==> s'.attempts[a].result == s.attempts[a].result)
  }

  lemma NextGrows(s: State, step: Step)
    ensures Grows(s, Next(s, step))
  {
  }

  lemma RequestKept(s: State, s': State, q: Request)
    requires RequestInv(s, q) && Grows(s, s')
    ensures RequestInv(s', q)
  {
    if q.phase.Finished? && q.phase.outcome.NetworkError? && !(Sent(q, None) && q.joined.None? && q.firstStatus.None?) {
      var tokens :| Sent(q, Some(tokens)) && Rotated(s, q, Some(tokens));
      assert Rotated(s', q, Some(tokens));
    }
  }

  lemma RefreshInv(s: State, r: nat)
    requires FlightInv(s) && r < |s.requests| && s.requests[r].phase.AwaitFirst? && RequestInv(s, s.requests[r])
    ensures RequestInv(Refresh(s, r), Refresh(s, r).requests[r])
  {
  }

  lemma ResumeInv(s: State, r: nat)
    requires MayResume(s, r) && RequestInv(s, s.requests[r])
    ensures RequestInv(Next(s, Resume(r)), Next(s, Resume(r)).requests[r])
  {
    var q, q' := s.requests[r], Next(s, Resume(r)).requests[r];
    if q'.phase.AwaitSecond? {
      assert q'.sends == [SendWith(q.call, q.call.access)] + [SendWith(q.call, q'.phase.tokens.access)];
    }
  }

  /** The remaining steps of a request: its start, an answer that is not a 401, a network error. */
  lemma PlainInv(s: State, step: Step, r: nat)
    requires r < |s.requests| && RequestInv(s, s.requests[r])
    requires step == Start(r) || step == NetworkFails(r) || (step.SecondAnswer? && step.r == r)
             || (step.FirstAnswer? && step.r == r && step.status != 401)
    ensures RequestInv(Next(s, step), Next(s, step).requests[r])
  {
    if step.NetworkFails? && s.requests[r].phase.AwaitSecond? {
      assert Rotated(s, Next(s, step).requests[r], Some(s.requests[r].phase.tokens));
    }
  }

  /** Which steps are a request's own. */
  lemma NextOwn(s: State, step: Step, r: nat)
    requires r < |s.requests|
    ensures var s' := Next(s, step);
            && r < |s'.requests|
            && (|| s'.requests[r] == s.requests[r]
                || (step == FirstAnswer(r, 401) && s.requests[r].phase.AwaitFirst?)
                || (step == Resume(r) && MayResume(s, r))
                || step == Start(r) || step == NetworkFails(r) || (step.SecondAnswer? && step.r == r)
                || (step.FirstAnswer? && step.r == r && step.status != 401))
  {
  }

  lemma OwnStep(s: State, step: Step, r: nat)
    requires FlightInv(s) && r < |s.requests| && RequestInv(s, s.requests[r])
    ensures r < |Next(s, step).requests| && RequestInv(Next(s, step), Next(s, step).requests[r])
  {
    NextOwn(s, step, r);
    if Next(s, step).requests[r] == s.requests[r] {
      NextGrows(s, step);
      RequestKept(s, Next(s, step), s.requests[r]);
    } else if step == FirstAnswer(r, 401) {
      RefreshInv(s, r);
    } else if step == Resume(r) {
      ResumeInv(s, r);
    } else {
      PlainInv(s, step, r);
    }
  }

  ghost predicate RequestsInv(s: State) {
    forall r :: 0 <= r < |s.requests| ==> RequestInv(s, s.requests[r])
  }

  lemma RequestsStep(s: State, step: Step)
    requires FlightInv(s) && RequestsInv(s)
    ensures RequestsInv(Next(s, step))
  {
    var s' := Next(s, step);
    forall r | 0 <= r < |s'.requests| ensures RequestInv(s', s'.requests[r]) {
      if r < |s.requests| {
        OwnStep(s, step, r);
      }
    }
  }

  lemma {:induction false} RequestsReachable(steps: seq<Step>)
    ensures FlightInv(After(steps)) && RequestsInv(After(steps))
  {
    if steps == [] {
    } else {
      RequestsReachable(steps[..|steps| - 1]);
      FlightStep(After(steps[..|steps| - 1]), steps[|steps| - 1]);
      RequestsStep(After(steps[..|steps| - 1]), steps[|steps| - 1]);
    }
  }

  /** Every request that joined an attempt and went on did so with that attempt's result. */
  lemma JoinersShareTheResult(steps: seq<Step>, r: nat)
    requires r < |After(steps).requests| && After(steps).requests[r].phase.Finished?
    requires After(steps).requests[r].joined.Some? && !After(steps).requests[r].phase.outcome.NetworkError?
    ensures var s := After(steps);
            var q := s.requests[r];
            && q.joined.value < |s.attempts|
            && s.attempts[q.joined.value].token == q.call.refresh
            && s.attempts[q.joined.value].result.Some?
            && match s.attempts[q.joined.value].result.value
               case None => q.phase.outcome == Expired
               case Some(tokens) => q.phase.outcome.Responded? && q.phase.outcome.rotated == Some(tokens)
  {
    RequestsReachable(steps);
  }

  // ---- the proxy's response ------------------------------------------------------------------

  datatype Cookies = Untouched | Cleared | Rewritten(tokens: Tokens)

  /** The proxy handler's answer to the browser: status and session cookies. */
  datatype Response = Response(status: int, cookies: Cookies)

  function Answer(outcome: Outcome): Response {
    match outcome
    case NoSession => Response(401, Untouched)
    case Expired => Response(401, Cleared)
    case Responded(status, None) => Response(status, Untouched)
    case Responded(status, Some(tokens)) => Response(status, Rewritten(tokens))
    case NetworkError => Response(500, Untouched)
  }

  /** The rotation a finished request obtained, read off the refresh it took part in. */
  ghost function Obtained(s: State, q: Request): Option<Tokens> {
    if q.joined.Some? && q.joined.value < |s.attempts| && s.attempts[q.joined.value].result.Some?
    then s.attempts[q.joined.value].result.value else None
  }

  ghost predicate Sends(q: Request, obtained: Option<Tokens>) {
    && |q.sends| <= 2
    && (forall i :: 0 <= i < |q.sends| ==>
          q.sends[i].url == q.call.url && q.sends[i].method_ == q.call.method_ && q.sends[i].body == q.call.body)
    && (q.sends != [] ==> q.sends[0].bearer == q.call.access)
    && (q.sends == [] <==> q.call.access == "")
    && (|q.sends| == 2 <==> obtained.Some?)
    && (|q.sends| == 2 ==> q.sends[1].bearer == obtained.value.access)
  }

  /**
   The response: 401 and untouched cookies when nothing was sent; the upstream's own status
   otherwise, except that a 401 without a rotation clears the cookies, a rotation rewrites
   them, and a send that was never answered is a 500.
   */
  ghost predicate Answers(q: Request, outcome: Outcome, obtained: Option<Tokens>) {
    var response := Answer(outcome);
    && (outcome.NetworkError? <==>
          (|q.sends| == 1 && q.firstStatus.None?) || (|q.sends| == 2 && q.secondStatus.None?))
    && (q.sends == [] ==> response.status == 401 && response.cookies.Untouched?)
    && (outcome.NetworkError? ==> response.status == 500 && response.cookies.Untouched?)
    && (|q.sends| == 1 && q.firstStatus.Some? ==>
          && response.status == q.firstStatus.value
          && response.cookies == if q.firstStatus == Some(401) then Cleared else Untouched)
    && (|q.sends| == 2 && q.secondStatus.Some? ==>
          response.status == q.secondStatus.value && obtained.Some? && response.cookies == Rewritten(obtained.value))
    && (response.cookies.Cleared? <==> q.firstStatus == Some(401) && obtained.None?)
    && (obtained.Some? && !response.cookies.Rewritten? <==> outcome.NetworkError? && |q.sends| == 2)
  }

  lemma OutcomeOf(s: State, q: Request)
    requires RequestInv(s, q) && q.phase.Finished?
    ensures Sends(q, Obtained(s, q)) && Answers(q, q.phase.outcome, Obtained(s, q))
  {
    if q.phase.outcome.NetworkError? && q.joined.Some? {
      var tokens :| Sent(q, Some(tokens)) && Rotated(s, q, Some(tokens));
    }
  }

  /**
   For every finished request, under every interleaving: at most two sends, both with its
   url, method and body, the first with its access token and the second with the rotated
   one; cookies are cleared exactly when the first send drew a 401 and no rotation was
   obtained; they are rewritten only with the rotation obtained; and a rotation obtained is
   lost to the browser exactly when the second send met a network error.
   */
  lemma ProxyOutcome(steps: seq<Step>, r: nat)
    requires r < |After(steps).requests| && After(steps).requests[r].phase.Finished?
    ensures var s := After(steps);
            var q := s.requests[r];
            Sends(q, Obtained(s, q)) && Answers(q, q.phase.outcome, Obtained(s, q))
  {
    RequestsReachable(steps);
    OutcomeOf(After(steps), After(steps).requests[r]);
  }

  /** A first send refused, a rotation obtained, and the network gone. */
  function LostRotation(call: Call, tokens: Tokens): seq<Step> {
    RetriedRun(call, tokens) + [NetworkFails(0)]
  }

  function RefusedRun(call: Call): seq<Step> {
    [] + [Arrive(call)] + [Start(0)] + [FirstAnswer(0, 401)]
  }

  function RetriedRun(call: Call, tokens: Tokens): seq<Step> {
    RefusedRun(call) + [RefreshAnswered(0, Http(true, tokens.access, tokens.refresh))] + [Cleanup(0)] + [Resume(0)]
  }

  lemma AfterStep(steps: seq<Step>, step: Step)
    ensures After(steps + [step]) == Next(After(steps), step)
  {
    assert (steps + [step])[..|steps|] == steps;
  }

  /** One request, refused and waiting for the refresh it started. */
  function RefusedState(call: Call): State {
    State(map[call.refresh := 0], [Attempt(call.refresh, 0, None, false)],
          [Request(call, AwaitRefresh(0), [Send(call.url, call.method_, call.body, call.access)], Some(401), Some(0), None)])
  }

  lemma Refused(call: Call)
    requires call.access != "" && call.refresh != ""
    ensures After(RefusedRun(call)) == RefusedState(call)
  {
    var r1: seq<Step> := [] + [Arrive(call)];
    AfterStep([], Arrive(call));
    AfterStep(r1, Start(0));
    AfterStep(r1 + [Start(0)], FirstAnswer(0, 401));
  }

  /** The refresh is answered and cleaned up, and the request goes on with the new tokens. */
  function RetriedState(call: Call, tokens: Tokens): State {
    State(map[], [Attempt(call.refresh, 0, Some(Some(tokens)), true)],
          [Request(call, AwaitSecond(tokens),
                   [Send(call.url, call.method_, call.body, call.access), Send(call.url, call.method_, call.body, tokens.access)],
                   Some(401), Some(0), None)])
  }

  lemma Retried(call: Call, tokens: Tokens)
    requires tokens.access != "" && tokens.refresh != ""
    ensures Next(Next(Next(RefusedState(call), RefreshAnswered(0, Http(true, tokens.access, tokens.refresh))), Cleanup(0)), Resume(0))
         == RetriedState(call, tokens)
  {
    var s1 := Next(RefusedState(call), RefreshAnswered(0, Http(true, tokens.access, tokens.refresh)));
    assert s1.attempts == [Attempt(call.refresh, 0, Some(Some(tokens)), false)];
    var s2 := Next(s1, Cleanup(0));
    assert s2.attempts == [Attempt(call.refresh, 0, Some(Some(tokens)), true)] && s2.inFlight == map[];
    assert s2.requests[0].sends + [SendWith(call, tokens.access)]
        == [Send(call.url, call.method_, call.body, call.access), Send(call.url, call.method_, call.body, tokens.access)];
  }

  /** The rotated pair reaches nobody: the browser keeps the token that was spent for it. */
  lemma ARotationIsLost(call: Call, tokens: Tokens)
    requires call.access != "" && call.refresh != "" && tokens.access != "" && tokens.refresh != ""
    ensures var s := After(LostRotation(call, tokens));
            && |s.requests| == 1 && s.requests[0].phase == Finished(NetworkError)
            && Obtained(s, s.requests[0]) == Some(tokens)
            && Answer(NetworkError).cookies == Untouched
  {
    RetriedReached(call, tokens);
    AfterStep(RetriedRun(call, tokens), NetworkFails(0));
  }

  lemma RetriedReached(call: Call, tokens: Tokens)
    requires call.access != "" && call.refresh != "" && tokens.access != "" && tokens.refresh != ""
    ensures After(RetriedRun(call, tokens)) == RetriedState(call, tokens)
  {
    var answered := RefreshAnswered(0, Http(true, tokens.access, tokens.refresh));
    Refused(call);
    Retried(call, tokens);
    AfterStep(RefusedRun(call), answered);
    AfterStep(RefusedRun(call) + [answered], Cleanup(0));
    AfterStep(RefusedRun(call) + [answered] + [Cleanup(0)], Resume(0));
  }
}
