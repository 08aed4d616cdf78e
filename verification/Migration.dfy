/**
 Stepwise migration against one-shot migration. A transaction runs some journal
 entries against the database; Postgres refuses an enum value in the transaction that
 added it. Drizzle's `migrate` runs every pending entry of the journal it is given in
 one transaction; stepwise migration feeds it ever longer prefixes.
 */
module Migration {
  import opened Options
  import opened Slices

  /** A migration: the enum values it adds and uses, and what else it does to the schema. */
  datatype Entry = Entry(tag: string, adds: set<string>, uses: set<string>)

  /** `applied` is drizzle's own bookkeeping, in order. */
  datatype Db<S> = Db(schema: S, enums: set<string>, applied: seq<Entry>)

  /** The rest of an entry's SQL; `None` is any other failure. */
  type Sql<!S> = (S, Entry) -> Option<S>

  /** One entry inside a transaction that began with these enum values: only those may be used. */
  function Execute<S>(sql: Sql<S>, db: Db<S>, entry: Entry, began: set<string>): Option<Db<S>> {
    if !(entry.uses <= began) then None
    else match sql(db.schema, entry)
      case None => None
      case Some(schema) => Some(Db(schema, db.enums + entry.adds, db.applied + [entry]))
  }

  /** Entries one after the other in one transaction: all of them or none. */
  function Transact<S>(sql: Sql<S>, db: Db<S>, entries: seq<Entry>, began: set<string>): Option<Db<S>>
    decreases |entries|
  {
    if entries == [] then Some(db)
    else
      var next := Execute(sql, db, entries[0], began);
      if next.None? then None else Transact(sql, next.value, entries[1..], began)
  }

  /** A database is at some point of a journal. */
  predicate IsAt<S>(db: Db<S>, journal: seq<Entry>, k: nat) {
    k <= |journal| && db.applied == journal[..k]
  }

  /** Drizzle's `migrate`: the pending entries in one transaction, rolled back as one. */
  function Migrate<S>(sql: Sql<S>, db: Db<S>, journal: seq<Entry>): (r: (Db<S>, bool)) {
    if |db.applied| >= |journal| then (db, true)
    else
      match Transact(sql, db, journal[|db.applied|..], db.enums)
      case None => (db, false)
      case Some(after) => (after, true)
  }

  /** Each entry in a transaction of its own, as far as they succeed. */
  function OneByOne<S>(sql: Sql<S>, db: Db<S>, entries: seq<Entry>): (r: (Db<S>, bool))
    decreases |entries|
  {
    if entries == [] then (db, true)
    else
      match Execute(sql, db, entries[0], db.enums)
      case None => (db, false)
      case Some(next) => OneByOne(sql, next, entries[1..])
  }

  lemma TransactOne<S>(sql: Sql<S>, db: Db<S>, entry: Entry)
    ensures Transact(sql, db, [entry], db.enums) == Execute(sql, db, entry, db.enums)
  {
  }

  lemma {:induction false} OneByOneApplies<S>(sql: Sql<S>, db: Db<S>, entries: seq<Entry>)
    ensures var (after, ok) := OneByOne(sql, db, entries);
            && |db.applied| <= |after.applied| <= |db.applied| + |entries|
            && after.applied == db.applied + entries[..|after.applied| - |db.applied|]
            && (ok <==> |after.applied| == |db.applied| + |entries|)
    decreases |entries|
  {
    if entries == [] {
    } else {
      var next := Execute(sql, db, entries[0], db.enums);
      if next.Some? {
        OneByOneApplies(sql, next.value, entries[1..]);
        var after := OneByOne(sql, db, entries).0;
        var n := |after.applied| - |db.applied|;
        assert entries[..n] == [entries[0]] + entries[1..][..n - 1];
      }
    }
  }

  lemma {:induction false} OneByOneSplit<S>(sql: Sql<S>, db: Db<S>, entries: seq<Entry>, last: Entry)
    ensures var (mid, ok) := OneByOne(sql, db, entries);
            OneByOne(sql, db, entries + [last]) == if ok then OneByOne(sql, mid, [last]) else (mid, false)
    decreases |entries|
  {
    if entries == [] {
    } else {
      assert (entries + [last])[1..] == entries[1..] + [last];
      var next := Execute(sql, db, entries[0], db.enums);
      if next.Some? {
        OneByOneSplit(sql, next.value, entries[1..], last);
      }
    }
  }

  /** One turn of the loop past the starting point. */
  lemma StageOne<S>(sql: Sql<S>, db: Db<S>, journal: seq<Entry>, k: nat, i: nat, before: Db<S>)
    requires k <= i < |journal| && before.applied == journal[..i]
    requires (before, true) == OneByOne(sql, db, journal[k..i])
    ensures var (after, ok) := Migrate(sql, before, journal[..i + 1]);
            && (after, ok) == OneByOne(sql, db, journal[k..i + 1])
            && (ok ==> after.applied == journal[..i + 1])
            && (!ok ==> (after, ok) == OneByOne(sql, db, journal[k..]))
  {
    var (after, ok) := Migrate(sql, before, journal[..i + 1]);
    assert journal[..i + 1][i..] == [journal[i]];
    TransactOne(sql, before, journal[i]);
    OneByOneSplit(sql, db, journal[k..i], journal[i]);
    SliceGrows(journal, k, i);
    PrefixGrows(journal, i);
    if !ok {
      SliceOfTail(journal, k, i + 1);
      StopsThere(sql, db, journal[k..], i + 1 - k);
    }
  }

  /**
   The loop: migrate against the first entry, the first two, and so on, stopping at the
   first failure. On a database at any point of the journal it commits the pending
   entries one by one, at most one to a transaction.
   */
  method MigrateStepwise<S>(sql: Sql<S>, db: Db<S>, journal: seq<Entry>, ghost k: nat)
    returns (after: Db<S>, ok: bool, batches: seq<nat>)
    requires IsAt(db, journal, k)
    ensures (after, ok) == OneByOne(sql, db, journal[k..])
    ensures LeftBehind(sql, db, journal, k, after, ok)
    ensures forall i :: 0 <= i < |batches| ==> batches[i] <= 1
  {
    Stepped(sql, db, journal, k);
    after, ok, batches := db, true, [];
    assert journal[k..k] == [];
    for i := 0 to |journal|
      invariant ok
      invariant |after.applied| == if i <= k then k else i
      invariant after.applied == journal[..|after.applied|]
      invariant (after, true) == OneByOne(sql, db, journal[k..|after.applied|])
      invariant forall j :: 0 <= j < |batches| ==> batches[j] <= 1
    {
      var staged := journal[..i + 1];
      var before := after;
      batches := batches + [if |staged| > |before.applied| then |staged| - |before.applied| else 0];
      after, ok := Migrate(sql, after, staged).0, Migrate(sql, after, staged).1;
      if i >= k {
        StageOne(sql, db, journal, k, i, before);
      }
      if !ok {
        return;
      }
    }
    assert journal[k..|journal|] == journal[k..];
  }

  /** A run from a point of the journal applied a beginning of the rest, whole exactly when it succeeded, with what those entries do. */
  ghost predicate LeftBehind<S>(sql: Sql<S>, db: Db<S>, journal: seq<Entry>, k: nat, after: Db<S>, ok: bool) {
    && k <= |after.applied| <= |journal| && after.applied == journal[..|after.applied|]
    && SchemaAfter(sql, db.schema, journal[k..|after.applied|]) == Some(after.schema)
    && after.enums == db.enums + Added(journal[k..|after.applied|])
    && (ok <==> after.applied == journal)
  }


  lemma Stepped<S>(sql: Sql<S>, db: Db<S>, journal: seq<Entry>, k: nat)
    requires IsAt(db, journal, k)
    ensures LeftBehind(sql, db, journal, k, OneByOne(sql, db, journal[k..]).0, OneByOne(sql, db, journal[k..]).1)
  {
    LeavesBehind(sql, db, journal[k..]);
    var m := |OneByOne(sql, db, journal[k..]).0.applied|;
    SliceOfTail(journal, k, m);
    assert journal[..k] + journal[k..m] == journal[..m];
  }

  /** Once an entry has failed, the later ones are not tried. */
  lemma {:induction false} StopsThere<S>(sql: Sql<S>, db: Db<S>, entries: seq<Entry>, n: nat)
    requires n <= |entries| && !OneByOne(sql, db, entries[..n]).1
    ensures OneByOne(sql, db, entries) == OneByOne(sql, db, entries[..n])
    decreases n
  {
    var next := Execute(sql, db, entries[0], db.enums);
    assert entries[..n][0] == entries[0];
    if next.None? {
    } else {
      assert entries[..n][1..] == entries[1..][..n - 1];
      StopsThere(sql, next.value, entries[1..], n - 1);
    }
  }

  // ---- against one-shot migration ------------------------------------------------------------

  /** No entry uses an enum value new to the transaction: one added before it that was not there when it began. */
  ghost predicate NoFreshUse(entries: seq<Entry>, began: set<string>, added: set<string>)
    decreases |entries|
  {
    entries != [] ==>
      && entries[0].uses * added == {}
      && NoFreshUse(entries[1..], began, added + (entries[0].adds - began))
  }

  /** The same, pair by pair. */
  ghost predicate NoFreshPair(entries: seq<Entry>, began: set<string>) {
    forall i, j :: 0 <= i < j < |entries| ==> (entries[i].adds - began) * entries[j].uses == {}
  }

  lemma {:induction false} NoFreshUsePairs(entries: seq<Entry>, began: set<string>, added: set<string>)
    ensures NoFreshUse(entries, began, added) <==>
            NoFreshPair(entries, began) && forall j :: 0 <= j < |entries| ==> entries[j].uses * added == {}
    decreases |entries|
  {
    if entries == [] {
    } else {
      var e, rest := entries[0], entries[1..];
      var more := added + (e.adds - began);
      NoFreshUsePairs(rest, began, more);
      assert forall j :: 0 < j < |entries| ==> entries[j] == rest[j - 1];
      assert forall j :: 0 <= j < |rest| ==> rest[j] == entries[j + 1];
      assert forall j :: 0 <= j < |rest| ==> rest[j].uses * more == rest[j].uses * added + (e.adds - began) * rest[j].uses;
    }
  }

  lemma UsableIff(uses: set<string>, began: set<string>, added: set<string>)
    requires began !! added
    ensures uses <= began <==> uses <= began + added && uses * added == {}
  {
    if uses <= began + added && uses * added == {} {
      forall x | x in uses ensures x in began {
        assert x !in uses * added;
      }
    }
  }

  /**
   One transaction succeeds exactly when the entries succeed one by one and none uses a
   value new to the transaction; then both leave the same database.
   */
  lemma {:induction false} TransactIff<S>(sql: Sql<S>, db: Db<S>, entries: seq<Entry>, began: set<string>, added: set<string>)
    requires db.enums == began + added && began !! added
    ensures var shot := Transact(sql, db, entries, began);
            && (shot.Some? <==> OneByOne(sql, db, entries).1 && NoFreshUse(entries, began, added))
            && (shot.Some? ==> shot.value == OneByOne(sql, db, entries).0)
    decreases |entries|
  {
    if entries == [] {
    } else {
      var e := entries[0];
      UsableIff(e.uses, began, added);
      var next := Execute(sql, db, e, db.enums);
      if next.Some? {
        TransactIff(sql, next.value, entries[1..], began, added + (e.adds - began));
      }
    }
  }

  /**
   From any point of the journal: one-shot migration succeeds exactly when stepwise
   migration does and no pending entry uses an enum value that an earlier pending entry
   adds anew; whenever it succeeds the two leave the same database, the whole journal
   applied, and when it fails the database is untouched.
   */
  lemma OneShotIff<S>(sql: Sql<S>, db: Db<S>, journal: seq<Entry>, k: nat)
    requires IsAt(db, journal, k)
    ensures var (shot, shotOk) := Migrate(sql, db, journal);
            var (stepped, stepOk) := OneByOne(sql, db, journal[k..]);
            && (shotOk <==> stepOk && NoFreshPair(journal[k..], db.enums))
            && (shotOk ==> shot == stepped && shot.applied == journal)
            && (!shotOk ==> shot == db)
  {
    var pending := journal[k..];
    TransactIff(sql, db, pending, db.enums, {});
    NoFreshUsePairs(pending, db.enums, {});
    OneByOneApplies(sql, db, pending);
    assert journal == journal[..k] + pending;
    if k == |journal| {
      assert pending == [];
    }
  }

  /** The entry that adds the value `lockout`, and a later one that uses it. */
  const ADDS_LOCKOUT := Entry("0035", {"lockout"}, {})
  const USES_LOCKOUT := Entry("0038", {}, {"lockout"})

  /** Pending together, they are refused in one shot, from any database without the value, and go through stepwise. */
  lemma OneShotRefusesLockout<S>(sql: Sql<S>, db: Db<S>, journal: seq<Entry>)
    requires "lockout" !in db.enums
    requires forall s, e :: sql(s, e).Some?
    requires journal == db.applied + [ADDS_LOCKOUT, USES_LOCKOUT]
    ensures Migrate(sql, db, journal) == (db, false)
    ensures var (stepped, ok) := OneByOne(sql, db, journal[|db.applied|..]);
            ok && stepped.applied == journal && stepped.enums == db.enums + {"lockout"}
  {
    var pending := journal[|db.applied|..];
    assert pending == [ADDS_LOCKOUT, USES_LOCKOUT];
    assert pending[1..] == [USES_LOCKOUT];
    var mid := Execute(sql, db, ADDS_LOCKOUT, db.enums).value;
    var end := Execute(sql, mid, USES_LOCKOUT, mid.enums).value;
    assert Transact(sql, mid, [USES_LOCKOUT], db.enums).None?;
    assert OneByOne(sql, mid, [USES_LOCKOUT]) == (end, true);
    assert db.applied + [ADDS_LOCKOUT] + [USES_LOCKOUT] == journal;
  }

  /**
   Where stepwise migration stops: exactly the entries before the first failure are
   applied, in order, so it ends at a point of the journal; and when it succeeded, the
   whole journal is applied and a second run changes nothing.
   */
  lemma StepwiseResumes<S>(sql: Sql<S>, db: Db<S>, journal: seq<Entry>, k: nat)
    requires IsAt(db, journal, k)
    ensures var (after, ok) := OneByOne(sql, db, journal[k..]);
            var m := |after.applied|;
            && k <= m && IsAt(after, journal, m)
            && (ok <==> after.applied == journal)
            && (ok ==> OneByOne(sql, after, journal[m..]) == (after, true))
            && (!ok ==> m < |journal| && OneByOne(sql, after, journal[m..]) == (after, false))
  {
    var (after, ok) := OneByOne(sql, db, journal[k..]);
    var m := |after.applied|;
    OneByOneApplies(sql, db, journal[k..]);
    SliceOfTail(journal, k, m);
    assert journal[..k] + journal[k..m] == journal[..m];
    if !ok {
      FirstFailure(sql, db, journal[k..]);
    }
  }

  /** The schema after some entries in a row, by their SQL alone; `None` when one fails. */
  function SchemaAfter<S>(sql: Sql<S>, schema: S, entries: seq<Entry>): Option<S> {
    if entries == [] then Some(schema)
    else
      var before := SchemaAfter(sql, schema, entries[..|entries| - 1]);
      if before.None? then None else sql(before.value, entries[|entries| - 1])
  }

  /** The enum values some entries add. */
  function Added(entries: seq<Entry>): set<string> {
    if entries == [] then {} else Added(entries[..|entries| - 1]) + entries[|entries| - 1].adds
  }

  lemma {:induction false} SchemaFrom<S>(sql: Sql<S>, schema: S, first: Entry, rest: seq<Entry>)
    requires sql(schema, first).Some?
    ensures SchemaAfter(sql, schema, [first] + rest) == SchemaAfter(sql, sql(schema, first).value, rest)
    ensures Added([first] + rest) == first.adds + Added(rest)
    decreases |rest|
  {
    var all := [first] + rest;
    if rest == [] {
      assert all[..|all| - 1] == [];
      assert SchemaAfter(sql, schema, []) == Some(schema);
    } else {
      assert all[..|all| - 1] == [first] + rest[..|rest| - 1];
      SchemaFrom(sql, schema, first, rest[..|rest| - 1]);
    }
  }

  /** What a run one by one leaves, in the entries' own terms. */
  ghost predicate Leaves<S>(sql: Sql<S>, db: Db<S>, entries: seq<Entry>, after: Db<S>, ok: bool) {
    var n := |after.applied| - |db.applied|;
    && 0 <= n <= |entries|
    && after.applied == db.applied + entries[..n]
    && SchemaAfter(sql, db.schema, entries[..n]) == Some(after.schema)
    && after.enums == db.enums + Added(entries[..n])
    && (ok <==> n == |entries|)
    && (!ok ==> !(entries[n].uses <= after.enums) || sql(after.schema, entries[n]).None?)
  }

  lemma LeavesMore<S>(sql: Sql<S>, db: Db<S>, first: Entry, rest: seq<Entry>, next: Db<S>, after: Db<S>, ok: bool)
    requires Execute(sql, db, first, db.enums) == Some(next) && Leaves(sql, next, rest, after, ok)
    ensures Leaves(sql, db, [first] + rest, after, ok)
  {
    var n := |after.applied| - |db.applied|;
    var entries := [first] + rest;
    assert entries[..n] == [first] + rest[..n - 1];
    SchemaFrom(sql, db.schema, first, rest[..n - 1]);
    assert db.applied + [first] + rest[..n - 1] == db.applied + ([first] + rest[..n - 1]);
  }

  /**
   What stepwise migration leaves behind: the schema the applied entries' SQL makes of the
   old one, the old enum values and those they add; and it goes on as long as the next entry
   uses only values that are there and its SQL succeeds.
   */
  lemma {:induction false} LeavesBehind<S>(sql: Sql<S>, db: Db<S>, entries: seq<Entry>)
    ensures Leaves(sql, db, entries, OneByOne(sql, db, entries).0, OneByOne(sql, db, entries).1)
    decreases |entries|
  {
    if entries == [] {
      assert db.applied + [] == db.applied;
    } else {
      var next := Execute(sql, db, entries[0], db.enums);
      if next.Some? {
        LeavesBehind(sql, next.value, entries[1..]);
        var (after, ok) := OneByOne(sql, next.value, entries[1..]);
        LeavesMore(sql, db, entries[0], entries[1..], next.value, after, ok);
        assert entries == [entries[0]] + entries[1..];
      } else {
        assert db.applied + [] == db.applied && entries[..0] == [];
      }
    }
  }

  /** The entry after the last applied one is the one that fails, on the database left behind. */
  lemma {:induction false} FirstFailure<S>(sql: Sql<S>, db: Db<S>, entries: seq<Entry>)
    requires !OneByOne(sql, db, entries).1
    ensures var after := OneByOne(sql, db, entries).0;
            var n := |after.applied| - |db.applied|;
            0 <= n < |entries| && Execute(sql, after, entries[n], after.enums).None?
            && OneByOne(sql, after, entries[n..]) == (after, false)
    decreases |entries|
  {
    var next := Execute(sql, db, entries[0], db.enums);
    if next.None? {
    } else {
      FirstFailure(sql, next.value, entries[1..]);
      var n := |OneByOne(sql, db, entries).0.applied| - |db.applied|;
      assert entries[1..][n - 1..] == entries[n..];
    }
  }
}
