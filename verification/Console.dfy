/**
 The fleet console's cache patch, and the whole path of a position: published,
 batched, relayed to the sockets of the node, patched into the cached snapshot.
 */
module Console {
  import opened Options
  import opened JsMap
  import opened Slices
  import opened Coalesce
  import opened Batcher
  import opened FleetRelay
  import opened Positions

  function FixOf(p: TruckPing): Fixed {
    Fixed(Some(p.body.lat), Some(p.body.lng), p.body.heading, p.body.speedKph, Some(p.at), false)
  }

  /** Field by field: the marker is where the ping says, and when. */
  predicate ShowsPing(fix: Fixed, p: TruckPing) {
    && fix.lat == Some(p.body.lat) && fix.lng == Some(p.body.lng)
    && fix.heading == p.body.heading && fix.speedKph == p.body.speedKph
    && fix.at == Some(p.at) && !fix.fromFallback
  }

  ghost predicate OneMarkerPerTruck(ms: seq<Marker>) {
    forall i, j :: 0 <= i < j < |ms| ==> ms[i].id.truckId != ms[j].id.truckId
  }

  // ---- the patch ------------------------------------------------------------------

  function ByTruck(ms: seq<Marker>): JsMap<string, Marker> {
    if ms == [] then Empty()
    else Put(ByTruck(ms[..|ms| - 1]), ms[|ms| - 1].id.truckId, ms[|ms| - 1])
  }

  function PatchMap(m: JsMap<string, Marker>, p: TruckPing): JsMap<string, Marker> {
    if p.key in m.vals then Put(m, p.key, m.vals[p.key].(fix := FixOf(p))) else m
  }

  function PatchMapAll(m: JsMap<string, Marker>, ps: seq<TruckPing>): JsMap<string, Marker> {
    if ps == [] then m else PatchMap(PatchMapAll(m, ps[..|ps| - 1]), ps[|ps| - 1])
  }

  /** The ping is the last of its truck in a batch. */
  ghost predicate IsLastFor(ps: seq<TruckPing>, truckId: string, j: nat) {
    j < |ps| && ps[j].key == truckId && forall k :: j < k < |ps| ==> ps[k].key != truckId
  }

  /** What a batch does to a marker: nothing if it does not mention the truck, and otherwise the last ping that does is shown. */
  ghost predicate Patched(before: Marker, after: Marker, ps: seq<TruckPing>) {
    && after.id == before.id
    && (!Mentions(ps, before.id.truckId) ==> after == before)
    && (forall j: nat :: IsLastFor(ps, before.id.truckId, j) ==> ShowsPing(after.fix, ps[j]))
  }

  ghost predicate AllPatched(before: seq<Marker>, after: seq<Marker>, ps: seq<TruckPing>) {
    |after| == |before| && forall i :: 0 <= i < |before| ==> Patched(before[i], after[i], ps)
  }

  lemma PatchOnePatches(m: Marker, ps: seq<TruckPing>)
    ensures Patched(m, PatchOne(m, ps), ps)
  {
    var t := m.id.truckId;
    if !Mentions(ps, t) {
      LastForNone(ps, t);
    }
    forall j: nat | IsLastFor(ps, t, j) ensures ShowsPing(PatchOne(m, ps).fix, ps[j]) {
      LastForUnique(ps, j);
    }
  }

  /** The cache updater: no snapshot yet means the batch is dropped. */
  method OnLocationUpdate(previous: Option<Snapshot>, incoming: seq<TruckPing>) returns (next: Option<Snapshot>)
    ensures next.Some? <==> previous.Some?
    ensures next.Some? && OneMarkerPerTruck(previous.value.positions) ==>
              AllPatched(previous.value.positions, next.value.positions, incoming)
    ensures next.Some? ==>
              next.value == previous.value.(positions := Values(PatchMapAll(ByTruck(previous.value.positions), incoming)))
  {
    if previous.None? { return None; }
    var ms := previous.value.positions;
    var byTruck: JsMap<string, Marker> := Empty();
    for n := 0 to |ms|
      invariant byTruck == ByTruck(ms[..n])
    {
      assert ms[..n + 1][..n] == ms[..n];
      byTruck := Put(byTruck, ms[n].id.truckId, ms[n]);
    }
    assert ms[..|ms|] == ms;
    for n := 0 to |incoming|
      invariant byTruck == PatchMapAll(ByTruck(ms), incoming[..n])
    {
      assert incoming[..n + 1][..n] == incoming[..n];
      var p := incoming[n];
      if p.key !in byTruck.vals { continue; }
      byTruck := Put(byTruck, p.key, byTruck.vals[p.key].(fix := FixOf(p)));
    }
    assert incoming[..|incoming|] == incoming;
    next := Some(previous.value.(positions := Values(byTruck)));
    if OneMarkerPerTruck(ms) {
      PatchIsPointwise(ms, incoming);
    }
  }

  /** The last ping for a truck in a batch. */
  function LastFor(ps: seq<TruckPing>, truckId: string): Option<TruckPing> {
    if ps == [] then None
    else if ps[|ps| - 1].key == truckId then Some(ps[|ps| - 1])
    else LastFor(ps[..|ps| - 1], truckId)
  }

  function PatchOne(m: Marker, ps: seq<TruckPing>): Marker {
    match LastFor(ps, m.id.truckId)
    case None => m
    case Some(p) => m.(fix := FixOf(p))
  }

  function PatchEach(ms: seq<Marker>, ps: seq<TruckPing>): seq<Marker> {
    seq(|ms|, i requires 0 <= i < |ms| => PatchOne(ms[i], ps))
  }

  ghost predicate Indexes(m: JsMap<string, Marker>, ms: seq<Marker>) {
    && |m.keys| == |ms|
    && forall i :: 0 <= i < |ms| ==> m.keys[i] == ms[i].id.truckId && m.keys[i] in m.vals && m.vals[m.keys[i]] == ms[i]
  }

  lemma IndexesPush(m: JsMap<string, Marker>, ms: seq<Marker>, x: Marker)
    requires Indexes(m, ms)
    requires forall i :: 0 <= i < |ms| ==> ms[i].id.truckId != x.id.truckId
    ensures Indexes(Put(m, x.id.truckId, x), ms + [x])
  {
    assert x.id.truckId !in m.keys;
  }

  lemma {:induction false} ByTruckIndexes(ms: seq<Marker>)
    requires OneMarkerPerTruck(ms)
    ensures Indexes(ByTruck(ms), ms)
  {
    if ms == [] {
    } else {
      var n := |ms| - 1;
      ByTruckIndexes(ms[..n]);
      IndexesPush(ByTruck(ms[..n]), ms[..n], ms[n]);
      assert ms == ms[..n] + [ms[n]];
    }
  }

  lemma PatchMapIndexes(m: JsMap<string, Marker>, ms: seq<Marker>, ps: seq<TruckPing>, p: TruckPing)
    requires Indexes(m, PatchEach(ms, ps))
    ensures Indexes(PatchMap(m, p), PatchEach(ms, ps + [p]))
  {
    assert (ps + [p])[..|ps + [p]| - 1] == ps;
    var after := PatchMap(m, p);
    assert after.keys == m.keys;
    forall i | 0 <= i < |ms|
      ensures after.keys[i] in after.vals && after.vals[after.keys[i]] == PatchEach(ms, ps + [p])[i]
    {
      assert m.keys[i] == PatchEach(ms, ps)[i].id.truckId;
      assert m.vals[m.keys[i]] == PatchEach(ms, ps)[i];
    }
  }

  lemma {:induction false} PatchMapAllIndexes(ms: seq<Marker>, ps: seq<TruckPing>)
    requires OneMarkerPerTruck(ms)
    ensures Indexes(PatchMapAll(ByTruck(ms), ps), PatchEach(ms, ps))
  {
    if ps == [] {
      ByTruckIndexes(ms);
      assert PatchEach(ms, ps) == ms;
    } else {
      var n := |ps| - 1;
      PatchMapAllIndexes(ms, ps[..n]);
      PatchMapIndexes(PatchMapAll(ByTruck(ms), ps[..n]), ms, ps[..n], ps[n]);
      assert ps == ps[..n] + [ps[n]];
    }
  }

  /** On a snapshot with one marker per truck, the map-based patch is the marker-by-marker patch. */
  lemma PatchIsPointwise(ms: seq<Marker>, ps: seq<TruckPing>)
    requires OneMarkerPerTruck(ms)
    ensures Values(PatchMapAll(ByTruck(ms), ps)) == PatchEach(ms, ps)
    ensures OneMarkerPerTruck(PatchEach(ms, ps))
    ensures AllPatched(ms, PatchEach(ms, ps), ps)
  {
    PatchMapAllIndexes(ms, ps);
    forall i | 0 <= i < |ms| ensures Patched(ms[i], PatchEach(ms, ps)[i], ps) {
      PatchOnePatches(ms[i], ps);
    }
  }

  // ---- end to end -----------------------------------------------------------------

  /** What a console shows after a node has flushed these windows, one flush each. */
  function Shown(ms: seq<Marker>, windows: seq<seq<FleetPing>>, fleetId: string): seq<Marker> {
    if windows == [] then ms
    else
      var before := Shown(ms, windows[..|windows| - 1], fleetId);
      var frames := FrameFor(windows[|windows| - 1], fleetId, 0);
      if frames == [] then before else Values(PatchMapAll(ByTruck(before), frames[0].positions))
  }

  ghost predicate Mentions(ps: seq<TruckPing>, truckId: string) {
    exists i :: 0 <= i < |ps| && ps[i].key == truckId
  }

  lemma {:induction false} LastForUnique(ps: seq<TruckPing>, i: nat)
    requires i < |ps|
    requires forall j :: i < j < |ps| ==> ps[j].key != ps[i].key
    ensures LastFor(ps, ps[i].key) == Some(ps[i])
  {
    if i == |ps| - 1 {
    } else {
      assert ps[..|ps| - 1][i] == ps[i];
      LastForUnique(ps[..|ps| - 1], i);
    }
  }

  lemma {:induction false} LastForNone(ps: seq<TruckPing>, t: string)
    requires !Mentions(ps, t)
    ensures LastFor(ps, t) == None
  {
    if ps == [] {
    } else {
      assert ps[|ps| - 1].key != t;
      assert forall i :: 0 <= i < |ps| - 1 ==> ps[..|ps| - 1][i] == ps[i];
      LastForNone(ps[..|ps| - 1], t);
    }
  }

  /** A drained window carries a truck's newest ping, or nothing about it. */
  lemma BatchCarriesNewest(pings: seq<TruckPing>, t: string)
    ensures !Mentions(pings, t) ==> LastFor(Values(Window(pings)), t) == None
    ensures forall i: nat :: IsNewest(pings, i) && pings[i].key == t ==>
              LastFor(Values(Window(pings)), t) == Some(pings[i])
  {
    var m := Window(pings);
    var batch := Values(m);
    WindowHoldsNewest(pings);
    WindowKeyed(pings);
    if t in m.vals {
      var n := IndexOf(m, t);
      assert batch[n] == m.vals[t] && batch[n].key == t;
      forall j | n < j < |batch| ensures batch[j].key != t {
        assert m.keys[j] in m.vals && batch[j].key == m.keys[j];
      }
      LastForUnique(batch, n);
      assert Holds(pings, t, m.vals[t]);
      forall i: nat | IsNewest(pings, i) && pings[i].key == t ensures m.vals[t] == pings[i] {
        WindowIsNewest(pings, i);
      }
    } else {
      forall j | 0 <= j < |batch| ensures batch[j].key != t {
        assert m.keys[j] in m.vals && batch[j].key == m.keys[j];
      }
      LastForNone(batch, t);
    }
  }

  lemma ShownStep(ms: seq<Marker>, windows: seq<seq<FleetPing>>, w: seq<FleetPing>, f: string)
    ensures OneMarkerPerTruck(Shown(ms, windows, f)) ==>
              && Shown(ms, windows + [w], f) == PatchEach(Shown(ms, windows, f), Values(Window(OfFleet(w, f))))
              && OneMarkerPerTruck(Shown(ms, windows + [w], f))
  {
    assert (windows + [w])[..|windows + [w]| - 1] == windows;
    var before := Shown(ms, windows, f);
    if OneMarkerPerTruck(before) {
      PatchIsPointwise(before, Values(Window(OfFleet(w, f))));
      if OfFleet(w, f) == [] {
        assert PatchEach(before, []) == before;
      }
    }
  }

  /** The window with index k is the last one in which the truck pinged its fleet. */
  ghost predicate LastHeard(windows: seq<seq<FleetPing>>, f: string, t: string, k: nat) {
    && k < |windows|
    && Mentions(OfFleet(windows[k], f), t)
    && forall l :: k < l < |windows| ==> !Mentions(OfFleet(windows[l], f), t)
  }

  /** The marker a run of windows owes the console. */
  ghost predicate ShowsNewest(m: Marker, after: Marker, windows: seq<seq<FleetPing>>, f: string) {
    && after.id == m.id
    && ((forall k :: 0 <= k < |windows| ==> !Mentions(OfFleet(windows[k], f), m.id.truckId)) ==> after == m)
    && (forall k: nat, i: nat ::
          LastHeard(windows, f, m.id.truckId, k) && IsNewest(OfFleet(windows[k], f), i)
          && OfFleet(windows[k], f)[i].key == m.id.truckId ==>
            ShowsPing(after.fix, OfFleet(windows[k], f)[i]))
  }

  lemma NeverMentioned(windows: seq<seq<FleetPing>>, w: seq<FleetPing>, f: string, t: string)
    requires forall k :: 0 <= k < |windows + [w]| ==> !Mentions(OfFleet((windows + [w])[k], f), t)
    ensures !Mentions(OfFleet(w, f), t)
    ensures forall k :: 0 <= k < |windows| ==> !Mentions(OfFleet(windows[k], f), t)
  {
    var all := windows + [w];
    assert all[|windows|] == w;
    assert forall k :: 0 <= k < |windows| ==> all[k] == windows[k];
  }

  lemma LastHeardBefore(windows: seq<seq<FleetPing>>, w: seq<FleetPing>, f: string, t: string, k: nat)
    requires LastHeard(windows + [w], f, t, k)
    ensures k < |windows| ==> LastHeard(windows, f, t, k) && !Mentions(OfFleet(w, f), t) && (windows + [w])[k] == windows[k]
    ensures k == |windows| ==> (windows + [w])[k] == w
  {
    var all := windows + [w];
    assert all[|windows|] == w;
    assert forall l :: 0 <= l < |windows| ==> all[l] == windows[l];
  }

  lemma ShowsNewestStep(m: Marker, before: Marker, windows: seq<seq<FleetPing>>, w: seq<FleetPing>, f: string)
    requires ShowsNewest(m, before, windows, f)
    ensures ShowsNewest(m, PatchOne(before, Values(Window(OfFleet(w, f)))), windows + [w], f)
  {
    var t := m.id.truckId;
    var all := windows + [w];
    var after := PatchOne(before, Values(Window(OfFleet(w, f))));
    BatchCarriesNewest(OfFleet(w, f), t);
    if forall k :: 0 <= k < |all| ==> !Mentions(OfFleet(all[k], f), t) {
      NeverMentioned(windows, w, f, t);
    }
    forall k: nat, i: nat | LastHeard(all, f, t, k) && IsNewest(OfFleet(all[k], f), i) && OfFleet(all[k], f)[i].key == t
      ensures ShowsPing(after.fix, OfFleet(all[k], f)[i])
    {
      LastHeardBefore(windows, w, f, t, k);
    }
  }

  ghost predicate AllShowNewest(ms: seq<Marker>, after: seq<Marker>, windows: seq<seq<FleetPing>>, f: string) {
    && |after| == |ms| && OneMarkerPerTruck(after)
    && forall i :: 0 <= i < |ms| ==> ShowsNewest(ms[i], after[i], windows, f)
  }

  lemma EndToEndStep(ms: seq<Marker>, windows: seq<seq<FleetPing>>, w: seq<FleetPing>, f: string)
    requires AllShowNewest(ms, Shown(ms, windows, f), windows, f)
    ensures AllShowNewest(ms, Shown(ms, windows + [w], f), windows + [w], f)
  {
    var before, after := Shown(ms, windows, f), Shown(ms, windows + [w], f);
    ShownStep(ms, windows, w, f);
    forall i | 0 <= i < |ms| ensures ShowsNewest(ms[i], after[i], windows + [w], f) {
      ShowsNewestStep(ms[i], before[i], windows, w, f);
    }
  }

  lemma NothingHeard(m: Marker, f: string)
    ensures ShowsNewest(m, m, [], f)
  {
  }

  /**
   End to end, over any number of windows: every marker keeps its place and its
   identity; a truck no ping of its fleet mentioned is untouched; every other shows
   the newest ping of the last window that mentioned it.
   */
  lemma {:induction false} EndToEnd(ms: seq<Marker>, windows: seq<seq<FleetPing>>, f: string)
    requires OneMarkerPerTruck(ms)
    ensures AllShowNewest(ms, Shown(ms, windows, f), windows, f)
  {
    if windows == [] {
      forall i | 0 <= i < |ms| ensures ShowsNewest(ms[i], ms[i], [], f) {
        NothingHeard(ms[i], f);
      }
    } else {
      var n := |windows| - 1;
      EndToEnd(ms, windows[..n], f);
      assert windows == windows[..n] + [windows[n]];
      EndToEndStep(ms, windows[..n], windows[n], f);
    }
  }

  // ---- from the node's sockets to the screen -----------------------------------------------

  /** A node's sockets after flushing these windows in turn, the i-th at `clock(i)`. */
  function Relayed(sockets: Sockets, windows: seq<seq<FleetPing>>, clock: nat -> int): Sockets {
    if windows == [] then sockets
    else
      var n := |windows| - 1;
      Flushed(Relayed(sockets, windows[..n], clock), windows[n], clock(n))
  }

  /** The console's cache after applying the frames of its socket in order. */
  function Applied(ms: seq<Marker>, frames: seq<Frame>): seq<Marker> {
    if frames == [] then ms
    else
      var before, last := Applied(ms, frames[..|frames| - 1]), frames[|frames| - 1];
      if last.LocationUpdate? then Values(PatchMapAll(ByTruck(before), last.positions)) else before
  }

  lemma AppliedOne(ms: seq<Marker>, frames: seq<Frame>, more: seq<Frame>)
    requires |more| <= 1
    ensures Applied(ms, frames + more) ==
            if more == [] || !more[0].LocationUpdate? then Applied(ms, frames)
            else Values(PatchMapAll(ByTruck(Applied(ms, frames)), more[0].positions))
  {
    if more == [] {
      assert frames + more == frames;
    } else {
      assert (frames + more)[..|frames + more| - 1] == frames;
    }
  }

  /** The frames a run of windows owes the consoles of a fleet. */
  function FramesFor(windows: seq<seq<FleetPing>>, fleetId: string, clock: nat -> int): seq<Frame> {
    if windows == [] then []
    else
      var n := |windows| - 1;
      FramesFor(windows[..n], fleetId, clock) + FrameFor(windows[n], fleetId, clock(n))
  }

  /** Flush by flush, a socket receives its own fleet's frames and nothing else. */
  lemma {:induction false} InboxGrows(sockets: Sockets, windows: seq<seq<FleetPing>>, clock: nat -> int, s: nat)
    requires s in sockets
    ensures s in Relayed(sockets, windows, clock)
    ensures Relayed(sockets, windows, clock)[s]
         == sockets[s].(inbox := sockets[s].inbox + FramesFor(windows, sockets[s].fleetId, clock))
  {
    if windows == [] {
      assert sockets[s].inbox + [] == sockets[s].inbox;
    } else {
      var n := |windows| - 1;
      InboxGrows(sockets, windows[..n], clock, s);
      var a, b, c := sockets[s].inbox, FramesFor(windows[..n], sockets[s].fleetId, clock), FrameFor(windows[n], sockets[s].fleetId, clock(n));
      Associates(a, b, c);
    }
  }

  /** Those frames, applied to the console's snapshot, show what `Shown` says. */
  lemma {:induction false} FramesShow(ms: seq<Marker>, windows: seq<seq<FleetPing>>, fleetId: string, clock: nat -> int)
    ensures Applied(ms, FramesFor(windows, fleetId, clock)) == Shown(ms, windows, fleetId)
  {
    if windows == [] {
    } else {
      var n := |windows| - 1;
      FramesShow(ms, windows[..n], fleetId, clock);
      AppliedOne(ms, FramesFor(windows[..n], fleetId, clock), FrameFor(windows[n], fleetId, clock(n)));
    }
  }

  /** A snapshot of the positions service has one marker per truck, whatever Redis holds. */
  lemma SnapshotIsPatchable(rows: seq<TruckRow>, trucks: seq<TruckRow>, redis: Option<Redis>)
    requires OnePerTruck(rows, trucks)
    ensures OneMarkerPerTruck(PositionsOf(trucks, redis))
  {
  }

  /**
   The whole path: a console of some fleet that loaded a snapshot and whose node then
   flushed any number of windows shows, for every listed truck, what those windows owe it.
   */
  lemma EveryConsole(rows: seq<TruckRow>, trucks: seq<TruckRow>, redis: Option<Redis>,
                     sockets: Sockets, windows: seq<seq<FleetPing>>, clock: nat -> int, s: nat)
    requires OnePerTruck(rows, trucks) && s in sockets
    ensures s in Relayed(sockets, windows, clock)
    ensures var ms := PositionsOf(trucks, redis);
            var got := FramesFor(windows, sockets[s].fleetId, clock);
            && Relayed(sockets, windows, clock)[s] == sockets[s].(inbox := sockets[s].inbox + got)
            && |Applied(ms, got)| == |trucks|
            && forall i :: 0 <= i < |trucks| ==> ShowsNewest(ms[i], Applied(ms, got)[i], windows, sockets[s].fleetId)
  {
    var ms := PositionsOf(trucks, redis);
    SnapshotIsPatchable(rows, trucks, redis);
    InboxGrows(sockets, windows, clock, s);
    FramesShow(ms, windows, sockets[s].fleetId, clock);
    EndToEnd(ms, windows, sockets[s].fleetId);
  }

  // ---- when a marker moves back in time ----------------------------------------------

  ghost predicate StepsBack(before: Marker, after: Marker) {
    before.fix.at.Some? && after.fix.at.Some? && after.fix.at.value < before.fix.at.value
  }

  ghost predicate OnlyOlder(pings: seq<TruckPing>, t: string, at: int) {
    Mentions(pings, t) && forall j :: 0 <= j < |pings| && pings[j].key == t ==> pings[j].at < at
  }

  /** A window that mentions a truck has a newest ping of it, and that is what the patch shows. */
  lemma PatchShows(m: Marker, mine: seq<TruckPing>) returns (n: nat)
    requires Mentions(mine, m.id.truckId)
    ensures n < |mine| && IsNewest(mine, n) && mine[n].key == m.id.truckId
    ensures PatchOne(m, Values(Window(mine))) == m.(fix := FixOf(mine[n]))
  {
    var t := m.id.truckId;
    WindowHoldsNewest(mine);
    assert t in Window(mine).vals;
    assert Holds(mine, t, Window(mine).vals[t]);
    n :| n < |mine| && IsNewest(mine, n) && mine[n] == Window(mine).vals[t] && mine[n].key == t;
    BatchCarriesNewest(mine, t);
  }

  lemma PatchStepsBack(m: Marker, mine: seq<TruckPing>)
    ensures StepsBack(m, PatchOne(m, Values(Window(mine)))) <==>
              m.fix.at.Some? && OnlyOlder(mine, m.id.truckId, m.fix.at.value)
  {
    if Mentions(mine, m.id.truckId) {
      var n := PatchShows(m, mine);
    } else {
      BatchCarriesNewest(mine, m.id.truckId);
    }
  }

  /** Exactly when the next flush moves a marker back: its truck pinged, and only with older timestamps. */
  lemma StepsBackIff(ms: seq<Marker>, windows: seq<seq<FleetPing>>, w: seq<FleetPing>, f: string, i: nat)
    requires OneMarkerPerTruck(ms) && i < |ms|
    ensures |Shown(ms, windows, f)| == |Shown(ms, windows + [w], f)| == |ms|
    ensures var before := Shown(ms, windows, f)[i];
            StepsBack(before, Shown(ms, windows + [w], f)[i]) <==>
              before.fix.at.Some? && OnlyOlder(OfFleet(w, f), ms[i].id.truckId, before.fix.at.value)
  {
    EndToEnd(ms, windows, f);
    ShownStep(ms, windows, w, f);
    assert ShowsNewest(ms[i], Shown(ms, windows, f)[i], windows, f);
    PatchStepsBack(Shown(ms, windows, f)[i], OfFleet(w, f));
  }

  lemma OnePing(p: TruckPing)
    ensures OfFleet([FleetPing("F", p)], "F") == [p]
  {
    OfFleetStep([], FleetPing("F", p), "F");
    assert [FleetPing("F", p)] == [] + [FleetPing("F", p)];
  }

  lemma ShownOnce(m: Marker, p: TruckPing)
    requires p.key == m.id.truckId
    ensures Shown([m], [[FleetPing("F", p)]], "F") == [m.(fix := FixOf(p))]
  {
    var w := [FleetPing("F", p)];
    OnePing(p);
    assert IsNewest([p], 0) && [p][0].key == m.id.truckId;
    BatchCarriesNewest([p], m.id.truckId);
    assert [w] == [] + [w];
    ShownStep([m], [], w, "F");
  }

  /** A marker that shows a ping steps back when the next window holds just an older one. */
  lemma StepsBackOn(m: Marker, windows: seq<seq<FleetPing>>, p: TruckPing, q: TruckPing)
    requires p.key == q.key == m.id.truckId && q.at < p.at
    requires Shown([m], windows, "F") == [m.(fix := FixOf(p))]
    ensures var w := [FleetPing("F", q)];
            |Shown([m], windows + [w], "F")| == 1 && StepsBack(m.(fix := FixOf(p)), Shown([m], windows + [w], "F")[0])
  {
    OnePing(q);
    assert [q][0].key == m.id.truckId;
    StepsBackIff([m], windows, [FleetPing("F", q)], "F", 0);
  }

  /** Out-of-order pings are dropped within a window only, so a late window does move a marker back. */
  lemma AMarkerStepsBack(m: Marker, p: TruckPing, q: TruckPing)
    requires p.key == q.key == m.id.truckId && q.at < p.at
    ensures var w1, w2 := [FleetPing("F", p)], [FleetPing("F", q)];
            && |Shown([m], [w1], "F")| == |Shown([m], [w1] + [w2], "F")| == 1
            && StepsBack(Shown([m], [w1], "F")[0], Shown([m], [w1] + [w2], "F")[0])
  {
    ShownOnce(m, p);
    StepsBackOn(m, [[FleetPing("F", p)]], p, q);
  }
}
