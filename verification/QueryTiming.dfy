/**
 Query timing: a wrapper around the database client that shadows each statement's
 `then`. Runs of the wrapped client are compared, step by step, with runs of the bare
 one: same answers everywhere, and one report per statement that was waited on.
 */
module QueryTiming {
  import opened Options

  datatype Outcome = Fulfilled(value: int) | Rejected(error: int)

  /** The two handlers given to `then`; a missing one is `None`. */
  datatype Handlers = Handlers(onFulfilled: Option<int -> Outcome>, onRejected: Option<int -> Outcome>)

  /** What a promise's `then` answers: a missing handler passes the outcome through. */
  function Then(h: Handlers, o: Outcome): Outcome {
    match o
    case Fulfilled(v) => if h.onFulfilled.None? then o else h.onFulfilled.value(v)
    case Rejected(e) => if h.onRejected.None? then o else h.onRejected.value(e)
  }

  /** The handlers the shadowed `then` passes on; both are always present. */
  function Shadowed(h: Handlers): Handlers {
    Handlers(
      Some(v => if h.onFulfilled.Some? then h.onFulfilled.value(v) else Fulfilled(v)),
      Some(e => if h.onRejected.Some? then h.onRejected.value(e) else Rejected(e)))
  }

  /** A continuation and, once it ran, the outcome it produced. */
  datatype Continuation = Continuation(handlers: Handlers, answer: Option<Outcome>)

  /** A statement. `timed` says its `then` is shadowed; `reported` is the shadow's own flag. */
  datatype Query = Query(
    text: string, timed: bool, reported: bool, outcome: Option<Outcome>, continuations: seq<Continuation>)

  /** A client: the top-level one, or one handed to a `begin` or `savepoint` callback. */
  datatype Client = Client(timed: bool)

  datatype State = State(clients: seq<Client>, queries: seq<Query>, reports: seq<nat>)

  datatype Step =
    | Unsafe(client: nat, text: string)
    | Open(client: nat)
    | Attach(q: nat, handlers: Handlers)
    | Settle(q: nat, outcome: Outcome)
    | Run(q: nat, k: nat)

  function Init(timed: bool): State {
    State([Client(timed)], [], [])
  }

  /** Running one continuation of a settled statement; the shadow reports first, if it has not yet. */
  function RunOne(s: State, q: nat, k: nat): State
    requires q < |s.queries| && k < |s.queries[q].continuations| && s.queries[q].outcome.Some?
  {
    var query := s.queries[q];
    var c := query.continuations[k];
    var h := if query.timed then Shadowed(c.handlers) else c.handlers;
    var ran := query.(continuations := query.continuations[k := c.(answer := Some(Then(h, query.outcome.value)))]);
    if query.timed && !query.reported
    then s.(queries := s.queries[q := ran.(reported := true)], reports := s.reports + [q])
    else s.(queries := s.queries[q := ran])
  }

  predicate CanRun(s: State, q: nat, k: nat) {
    && q < |s.queries| && k < |s.queries[q].continuations|
    && s.queries[q].outcome.Some? && s.queries[q].continuations[k].answer.None?
  }

  function Next(s: State, step: Step): State {
    match step
    case Unsafe(c, text) =>
      if c >= |s.clients| then s
      else s.(queries := s.queries + [Query(text, s.clients[c].timed, false, None, [])])
    case Open(c) =>
      if c >= |s.clients| then s else s.(clients := s.clients + [Client(s.clients[c].timed)])
    case Attach(q, h) =>
      if q >= |s.queries| then s
      else
        var query := s.queries[q];
        s.(queries := s.queries[q := query.(continuations := query.continuations + [Continuation(h, None)])])
    case Settle(q, o) =>
      if q >= |s.queries| || s.queries[q].outcome.Some? then s
      else s.(queries := s.queries[q := s.queries[q].(outcome := Some(o))])
    case Run(q, k) => if CanRun(s, q, k) then RunOne(s, q, k) else s
  }

  function After(timed: bool, steps: seq<Step>): State {
    if steps == [] then Init(timed) else Next(After(timed, steps[..|steps| - 1]), steps[|steps| - 1])
  }

  // ---- reported once ------------------------------------------------------------------------

  predicate Waited(query: Query) {
    exists k :: 0 <= k < |query.continuations| && query.continuations[k].answer.Some?
  }

  /** In a wrapped client everything is timed, however deep, and a statement is in the reports once or not at all. */
  ghost predicate TimedInv(s: State) {
    && (forall c :: 0 <= c < |s.clients| ==> s.clients[c].timed)
    && (forall q :: 0 <= q < |s.queries| ==>
          && s.queries[q].timed
          && (s.queries[q].reported <==> Waited(s.queries[q]))
          && multiset(s.reports)[q] == if s.queries[q].reported then 1 else 0)
    && (forall q :: q in s.reports ==> q < |s.queries|)
  }

  lemma RunReports(s: State, q: nat, k: nat)
    requires TimedInv(s) && CanRun(s, q, k)
    ensures TimedInv(RunOne(s, q, k))
  {
    var s' := RunOne(s, q, k);
    assert s'.queries[q].continuations[k].answer.Some?;
    assert Waited(s'.queries[q]);
  }

  lemma AttachReports(s: State, q: nat, h: Handlers)
    requires TimedInv(s) && q < |s.queries|
    ensures TimedInv(Next(s, Attach(q, h)))
  {
    var a, b := s.queries[q].continuations, s.queries[q].continuations + [Continuation(h, None)];
    assert forall k :: 0 <= k < |a| ==> a[k] == b[k];
    assert Waited(s.queries[q]) <==> Waited(Next(s, Attach(q, h)).queries[q]);
  }

  lemma UnsafeReports(s: State, client: nat, text: string)
    requires TimedInv(s)
    ensures TimedInv(Next(s, Unsafe(client, text)))
  {
    assert |s.queries| !in s.reports;
  }

  lemma SettleReports(s: State, q: nat, o: Outcome)
    requires TimedInv(s)
    ensures TimedInv(Next(s, Settle(q, o)))
  {
    if q < |s.queries| {
      assert Waited(s.queries[q].(outcome := Some(o))) <==> Waited(s.queries[q]);
    }
  }

  lemma TimedStep(s: State, step: Step)
    requires TimedInv(s)
    ensures TimedInv(Next(s, step))
  {
    match step
    case Unsafe(client, text) => UnsafeReports(s, client, text);
    case Open(_) =>
    case Attach(q, h) => if q < |s.queries| { AttachReports(s, q, h); }
    case Settle(q, o) => SettleReports(s, q, o);
    case Run(q, k) => if CanRun(s, q, k) { RunReports(s, q, k); }
  }

  lemma {:induction false} TimedReachable(steps: seq<Step>)
    ensures TimedInv(After(true, steps))
  {
    if steps == [] {
    } else {
      TimedReachable(steps[..|steps| - 1]);
      TimedStep(After(true, steps[..|steps| - 1]), steps[|steps| - 1]);
    }
  }

  /**
   Any tree of transactions and savepoints, any number of continuations per statement, in
   any order: a statement is reported exactly once if some continuation of it has run, and
   otherwise not at all.
   */
  lemma ReportedOnce(steps: seq<Step>, q: nat)
    requires q < |After(true, steps).queries|
    ensures multiset(After(true, steps).reports)[q] == if Waited(After(true, steps).queries[q]) then 1 else 0
  {
    TimedReachable(steps);
  }

  // ---- nothing else changes ------------------------------------------------------------------

  /** Two queries alike but for the wrapper's own two flags. */
  ghost predicate SameQuery(a: Query, b: Query) {
    a.text == b.text && a.outcome == b.outcome && a.continuations == b.continuations
  }

  ghost predicate Alike(a: State, b: State) {
    && |a.clients| == |b.clients|
    && |a.queries| == |b.queries|
    && forall q :: 0 <= q < |a.queries| ==> SameQuery(a.queries[q], b.queries[q])
  }

  lemma ShadowIsTransparent(h: Handlers, o: Outcome)
    ensures Then(Shadowed(h), o) == Then(h, o)
  {
  }

  lemma RunAlike(a: State, b: State, q: nat, k: nat)
    requires Alike(a, b) && CanRun(a, q, k)
    ensures CanRun(b, q, k) && Alike(RunOne(a, q, k), RunOne(b, q, k))
  {
    assert SameQuery(a.queries[q], b.queries[q]);
    ShadowIsTransparent(a.queries[q].continuations[k].handlers, a.queries[q].outcome.value);
  }

  lemma NextAlike(a: State, b: State, step: Step)
    requires Alike(a, b)
    ensures Alike(Next(a, step), Next(b, step))
  {
    match step
    case Run(q, k) =>
      if q < |a.queries| { assert SameQuery(a.queries[q], b.queries[q]); }
      if CanRun(a, q, k) { RunAlike(a, b, q, k); }
    case Attach(q, _) => if q < |a.queries| { assert SameQuery(a.queries[q], b.queries[q]); }
    case Settle(q, _) => if q < |a.queries| { assert SameQuery(a.queries[q], b.queries[q]); }
    case _ =>
  }

  /** After the same steps, every continuation of every statement has the answer it has without the wrapper. */
  lemma {:induction false} TimingIsTransparent(steps: seq<Step>)
    ensures Alike(After(true, steps), After(false, steps))
  {
    if steps == [] {
    } else {
      TimingIsTransparent(steps[..|steps| - 1]);
      NextAlike(After(true, steps[..|steps| - 1]), After(false, steps[..|steps| - 1]), steps[|steps| - 1]);
    }
  }
}
