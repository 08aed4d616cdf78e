/**
 Single-use handshake tickets: claims are written to Redis under a random key, read and
 deleted in one command at the handshake, and narrowed before anything trusts them.
 */
module Tickets {
  import opened Options

  datatype SubRole = SuperAdmin | Operations | Support | Finance

  datatype Claims =
    | Fleet(fleetId: string, subjectId: string)
    | Driver(subjectId: string)
    | Customer(subjectId: string, bookingId: string)
    | Admin(subjectId: string, subRole: SubRole)

  /** A parsed JSON value, as far as narrowing looks into it. */
  datatype Json = JString(text: string) | JObject(fields: map<string, Json>) | JOther

  function SubRoleName(r: SubRole): string {
    match r
    case SuperAdmin => "super_admin"
    case Operations => "operations"
    case Support => "support"
    case Finance => "finance"
  }

  function ParseSubRole(j: Option<Json>): Option<SubRole> {
    if j.None? || !j.value.JString? then None
    else if j.value.text == "super_admin" then Some(SuperAdmin)
    else if j.value.text == "operations" then Some(Operations)
    else if j.value.text == "support" then Some(Support)
    else if j.value.text == "finance" then Some(Finance)
    else None
  }

  function Serialise(c: Claims): Json {
    match c
    case Fleet(f, s) => JObject(map["realm" := JString("fleet"), "fleetId" := JString(f), "subjectId" := JString(s)])
    case Driver(s) => JObject(map["realm" := JString("driver"), "subjectId" := JString(s)])
    case Customer(s, b) => JObject(map["realm" := JString("customer"), "subjectId" := JString(s), "bookingId" := JString(b)])
    case Admin(s, r) => JObject(map["realm" := JString("admin"), "subjectId" := JString(s), "subRole" := JString(SubRoleName(r))])
  }

  function Field(j: Json, name: string): Option<Json> {
    if j.JObject? && name in j.fields then Some(j.fields[name]) else None
  }

  /** A field that is a non-empty string. */
  function Text(j: Json, name: string): Option<string> {
    var v := Field(j, name);
    if v.Some? && v.value.JString? && v.value.text != "" then Some(v.value.text) else None
  }

  function Narrow(j: Json): Option<Claims> {
    var subject, realm := Text(j, "subjectId"), Text(j, "realm");
    if !j.JObject? || subject.None? || realm.None? then None
    else if realm.value == "driver" then Some(Driver(subject.value))
    else if realm.value == "customer" then
      var booking := Text(j, "bookingId");
      if booking.None? then None else Some(Customer(subject.value, booking.value))
    else if realm.value == "admin" then
      var role := ParseSubRole(Field(j, "subRole"));
      if role.None? then None else Some(Admin(subject.value, role.value))
    else if realm.value == "fleet" then
      var fleet := Text(j, "fleetId");
      if fleet.None? then None else Some(Fleet(fleet.value, subject.value))
    else None
  }

  /** Claims whose ids are all there. */
  predicate Complete(c: Claims) {
    && c.subjectId != ""
    && (c.Fleet? ==> c.fleetId != "")
    && (c.Customer? ==> c.bookingId != "")
  }

  lemma SubRoleRoundTrip(r: SubRole)
    ensures ParseSubRole(Some(JString(SubRoleName(r)))) == Some(r)
  {
    var a, b, c, d := "super_admin", "operations", "support", "finance";
    assert a[3] == 'e' && c[3] == 'p' && a[0] == 's' && b[0] == 'o' && c[0] == 's' && d[0] == 'f';
  }

  /** Narrowing inverts serialisation for all four realms, exactly on claims without an empty id. */
  lemma NarrowInverts(c: Claims)
    ensures Complete(c) <==> Narrow(Serialise(c)) == Some(c)
    ensures !Complete(c) ==> Narrow(Serialise(c)) == None
  {
    var f, d, u, a := "fleet", "driver", "customer", "admin";
    assert f[0] == 'f' && d[0] == 'd' && u[0] == 'c' && a[0] == 'a';
    if c.Admin? {
      SubRoleRoundTrip(c.subRole);
    }
  }

  /** Whatever was stored, narrowing lets only complete claims through, and they survive another round. */
  lemma NarrowIsComplete(j: Json)
    requires Narrow(j).Some?
    ensures Complete(Narrow(j).value)
    ensures Narrow(Serialise(Narrow(j).value)) == Narrow(j)
  {
    NarrowInverts(Narrow(j).value);
  }

  /** A field holds this non-empty text. */
  ghost predicate Holds(j: Json, name: string, text: string) {
    j.JObject? && name in j.fields && j.fields[name] == JString(text) && text != ""
  }

  /** Field by field, which stored values narrow to which claims. */
  ghost predicate Says(j: Json, c: Claims) {
    && Holds(j, "subjectId", c.subjectId)
    && match c
       case Fleet(f, _) => Holds(j, "realm", "fleet") && Holds(j, "fleetId", f)
       case Driver(_) => Holds(j, "realm", "driver")
       case Customer(_, b) => Holds(j, "realm", "customer") && Holds(j, "bookingId", b)
       case Admin(_, SuperAdmin) => Holds(j, "realm", "admin") && Holds(j, "subRole", "super_admin")
       case Admin(_, Operations) => Holds(j, "realm", "admin") && Holds(j, "subRole", "operations")
       case Admin(_, Support) => Holds(j, "realm", "admin") && Holds(j, "subRole", "support")
       case Admin(_, Finance) => Holds(j, "realm", "admin") && Holds(j, "subRole", "finance")
  }

  lemma RealmsDiffer()
    ensures "fleet" != "driver" && "fleet" != "customer" && "fleet" != "admin"
    ensures "driver" != "customer" && "driver" != "admin" && "customer" != "admin"
  {
    var f, d, u, a := "fleet", "driver", "customer", "admin";
    assert f[0] == 'f' && d[0] == 'd' && u[0] == 'c' && a[0] == 'a';
  }

  lemma SubRoleIff(j: Option<Json>, role: SubRole)
    ensures ParseSubRole(j) == Some(role) <==> j == Some(JString(SubRoleName(role)))
  {
    SubRoleRoundTrip(role);
  }

  /** Exactly which stored values narrow to which claims. */
  lemma NarrowIff(j: Json, c: Claims)
    ensures Narrow(j) == Some(c) <==> Says(j, c)
  {
    RealmsDiffer();
    if c.Admin? {
      SubRoleIff(Field(j, "subRole"), c.subRole);
    }
  }

  // ---- issue, expire, consume -----------------------------------------------------------------

  datatype Stored = Stored(raw: Json, expires: int)

  datatype Redeemed = Redeemed(ticket: string, claims: Claims)

  /** The tickets in Redis. `issued` and `redeemed` record the history. */
  datatype Desk = Desk(now: int, store: map<string, Stored>, issued: map<string, Claims>, redeemed: seq<Redeemed>)

  const NEW_DESK := Desk(0, map[], map[], [])

  /** The Redis command may fail, before it ran or with its reply lost. */
  datatype Fault = NoFault | NotRun | ReplyLost

  function Elapse(d: Desk, ms: nat): Desk {
    d.(now := d.now + ms)
  }

  /** `issue`; tickets are random, so one that was issued before does not come up again. */
  function Issue(d: Desk, t: string, claims: Claims, ttl: nat): Desk {
    if t in d.issued || t == "" then d
    else d.(store := d.store[t := Stored(Serialise(claims), d.now + ttl)], issued := d.issued[t := claims])
  }

  /** `consume`: `shown` is the ticket when it is a string; the key is gone whenever the command ran. */
  function Consume(d: Desk, shown: Option<string>, fault: Fault): (r: (Desk, Option<Claims>)) {
    if shown.None? || shown.value == "" || |shown.value| > 256 || fault.NotRun? then (d, None)
    else
      var t := shown.value;
      var d' := d.(store := d.store - {t});
      if t !in d.store || d.now >= d.store[t].expires || fault.ReplyLost? then (d', None)
      else
        var claims := Narrow(d.store[t].raw);
        if claims.None? then (d', None)
        else (d'.(redeemed := d.redeemed + [Redeemed(t, claims.value)]), claims)
  }

  /** A redeemed ticket is spent, and yielded the claims it was issued with. */
  ghost predicate Spent(d: Desk, r: Redeemed) {
    r.ticket in d.issued && r.ticket !in d.store && r.claims == d.issued[r.ticket] && Complete(r.claims)
  }

  ghost predicate DeskInv(d: Desk) {
    && (forall t :: t in d.store ==> t in d.issued && d.store[t].raw == Serialise(d.issued[t]))
    && (forall i :: 0 <= i < |d.redeemed| ==> Spent(d, d.redeemed[i]))
    && (forall i, j :: 0 <= i < j < |d.redeemed| ==> d.redeemed[i].ticket != d.redeemed[j].ticket)
  }

  lemma ElapseKeeps(d: Desk, ms: nat)
    requires DeskInv(d)
    ensures DeskInv(Elapse(d, ms))
  {
  }

  lemma IssueKeeps(d: Desk, t: string, claims: Claims, ttl: nat)
    requires DeskInv(d)
    ensures DeskInv(Issue(d, t, claims, ttl))
    ensures forall u :: u in d.issued ==> u in Issue(d, t, claims, ttl).issued && Issue(d, t, claims, ttl).issued[u] == d.issued[u]
    ensures forall u :: u in Issue(d, t, claims, ttl).store ==> u in d.store || u !in d.issued
  {
  }

  /** A ticket that yields claims was unspent, yields the claims it was issued with, and is spent now. */
  lemma ConsumeKeeps(d: Desk, shown: Option<string>, fault: Fault)
    requires DeskInv(d)
    ensures var (d', claims) := Consume(d, shown, fault);
            && DeskInv(d') && d'.issued == d.issued
            && (forall u :: u in d'.store ==> u in d.store)
            && (claims.Some? ==>
                  && shown.Some? && shown.value in d.store && shown.value !in d'.store
                  && shown.value in d.issued && d.issued[shown.value] == claims.value && Complete(claims.value))
  {
    var (d', claims) := Consume(d, shown, fault);
    if claims.Some? {
      NarrowInverts(d.issued[shown.value]);
      assert Spent(d', Redeemed(shown.value, claims.value));
    }
  }

  // ---- who is let in ----------------------------------------------------------------------------

  datatype Namespace = FleetConsole | AdminConsole

  /** Whom a handshake lets in: a console of a tenant, or an operator. */
  datatype Entrant = Tenant(fleetId: string) | Operator(adminId: string, subRole: SubRole)

  /** Realm before id, and only the namespace's own realm. */
  function Enter(namespace: Namespace, claims: Option<Claims>): Option<Entrant> {
    match (namespace, claims)
    case (FleetConsole, Some(Fleet(f, _))) => Some(Tenant(f))
    case (AdminConsole, Some(Admin(a, role))) => Some(Operator(a, role))
    case _ => None
  }

  /** Field by field, whom claims let into a namespace. */
  ghost predicate LetsIn(namespace: Namespace, claims: Claims, entrant: Entrant) {
    match entrant
    case Tenant(f) => namespace.FleetConsole? && claims.Fleet? && claims.fleetId == f
    case Operator(a, role) => namespace.AdminConsole? && claims.Admin? && claims.subjectId == a && claims.subRole == role
  }

  lemma EntersIff(namespace: Namespace, claims: Claims, entrant: Entrant)
    ensures Enter(namespace, Some(claims)) == Some(entrant) <==> LetsIn(namespace, claims, entrant)
  {
  }

  /** A socket let in, and the ticket it showed. Its connection follows later. */
  datatype Seat = Seat(namespace: Namespace, ticket: string, entrant: Entrant)

  datatype State = State(desk: Desk, seats: seq<Seat>)

  datatype Step =
    | Wait(ms: nat)
    | Mint(ticket: string, claims: Claims, ttl: nat)
    | Handshake(namespace: Namespace, shown: Option<string>, fault: Fault)

  const INIT := State(NEW_DESK, [])

  function Next(s: State, step: Step): State {
    match step
    case Wait(ms) => s.(desk := Elapse(s.desk, ms))
    case Mint(t, claims, ttl) => s.(desk := Issue(s.desk, t, claims, ttl))
    case Handshake(ns, shown, fault) =>
      var (desk, claims) := Consume(s.desk, shown, fault);
      var entrant := Enter(ns, claims);
      if entrant.None? || shown.None? then s.(desk := desk)
      else State(desk, s.seats + [Seat(ns, shown.value, entrant.value)])
  }

  function After(steps: seq<Step>): State {
    if steps == [] then INIT else Next(After(steps[..|steps| - 1]), steps[|steps| - 1])
  }

  ghost predicate Admitted(d: Desk, seat: Seat) {
    && seat.ticket in d.issued && seat.ticket !in d.store && Complete(d.issued[seat.ticket])
    && Enter(seat.namespace, Some(d.issued[seat.ticket])) == Some(seat.entrant)
  }

  ghost predicate Inv(s: State) {
    && DeskInv(s.desk)
    && (forall i :: 0 <= i < |s.seats| ==> Admitted(s.desk, s.seats[i]))
    && (forall i, j :: 0 <= i < j < |s.seats| ==> s.seats[i].ticket != s.seats[j].ticket)
  }

  lemma HandshakeKeeps(s: State, ns: Namespace, shown: Option<string>, fault: Fault)
    requires Inv(s)
    ensures Inv(Next(s, Handshake(ns, shown, fault)))
  {
    ConsumeKeeps(s.desk, shown, fault);
  }

  lemma {:induction false} Reachable(steps: seq<Step>)
    ensures Inv(After(steps))
  {
    if steps == [] {
    } else {
      Reachable(steps[..|steps| - 1]);
      KeptBy(After(steps[..|steps| - 1]), steps[|steps| - 1]);
    }
  }

  /** A ticket that can still be redeemed. */
  predicate Live(d: Desk, shown: Option<string>) {
    && shown.Some? && 0 < |shown.value| <= 256
    && shown.value in d.store && d.now < d.store[shown.value].expires
  }

  /**
   Exactly when a handshake lets somebody in, as whom: the command got its reply, the ticket
   shown is live, and it was issued, without an empty id, in the namespace's own realm.
   */
  lemma HandshakeAdmitsIff(s: State, ns: Namespace, shown: Option<string>, fault: Fault, entrant: Entrant)
    requires Inv(s) && shown.Some?
    ensures Next(s, Handshake(ns, shown, fault)).seats == s.seats + [Seat(ns, shown.value, entrant)] <==>
              && fault.NoFault? && Live(s.desk, shown)
              && Complete(s.desk.issued[shown.value])
              && LetsIn(ns, s.desk.issued[shown.value], entrant)
  {
    var expected := s.seats + [Seat(ns, shown.value, entrant)];
    assert expected[|s.seats|] == Seat(ns, shown.value, entrant);
    if shown.value in s.desk.store {
      NarrowInverts(s.desk.issued[shown.value]);
      EntersIff(ns, s.desk.issued[shown.value], entrant);
      var admitted := Enter(ns, Some(s.desk.issued[shown.value]));
      if admitted.Some? {
        assert (s.seats + [Seat(ns, shown.value, admitted.value)])[|s.seats|].entrant == admitted.value;
      }
    }
  }

  /** A fresh ticket can be redeemed for as long as it was issued for. */
  lemma IssuedIsLive(d: Desk, t: string, claims: Claims, ttl: nat, ms: nat)
    requires t !in d.issued && 0 < |t| <= 256
    ensures Live(Elapse(Issue(d, t, claims, ttl), ms), Some(t)) <==> ms < ttl
  {
  }

  /** Nobody who was let in is forgotten. */
  lemma SeatsGrow(s: State, step: Step)
    ensures s.seats <= Next(s, step).seats
  {
  }

  lemma KeptBy(s: State, step: Step)
    requires Inv(s)
    ensures Inv(Next(s, step))
  {
    match step
    case Wait(ms) => ElapseKeeps(s.desk, ms);
    case Mint(t, claims, ttl) => IssueKeeps(s.desk, t, claims, ttl);
    case Handshake(ns, t, f) => HandshakeKeeps(s, ns, t, f);
  }

  /**
   Over every interleaving of issues, expiries and handshakes, failed ones included: a
   ticket yields claims at most once and those are the ones it was issued with; it admits
   at most one socket, as the tenant or operator its own realm and ids decide, and only to
   that realm's namespace.
   */
  lemma TicketsAreSingleUse(steps: seq<Step>)
    ensures var d, seats := After(steps).desk, After(steps).seats;
            && (forall i, j :: 0 <= i < j < |d.redeemed| ==> d.redeemed[i].ticket != d.redeemed[j].ticket)
            && (forall i :: 0 <= i < |d.redeemed| ==>
                  d.redeemed[i].ticket in d.issued && d.redeemed[i].claims == d.issued[d.redeemed[i].ticket])
            && (forall i, j :: 0 <= i < j < |seats| ==> seats[i].ticket != seats[j].ticket)
            && (forall i :: 0 <= i < |seats| ==>
                  && seats[i].ticket in d.issued
                  && LetsIn(seats[i].namespace, d.issued[seats[i].ticket], seats[i].entrant))
  {
    Reachable(steps);
    var s := After(steps);
    forall i | 0 <= i < |s.seats| ensures Admitted(s.desk, s.seats[i]) && LetsIn(s.seats[i].namespace, s.desk.issued[s.seats[i].ticket], s.seats[i].entrant) {
      EntersIff(s.seats[i].namespace, s.desk.issued[s.seats[i].ticket], s.seats[i].entrant);
    }
    assert forall i :: 0 <= i < |s.desk.redeemed| ==> Spent(s.desk, s.desk.redeemed[i]);
    assert forall i :: 0 <= i < |s.seats| ==> Admitted(s.desk, s.seats[i]);
  }
}
