/** The multi-gateway admission controller over a table of lease rows with a time to live
    (PostgresAdmissionController in gpucall/admission.py), and its refinement of the
    in-process controller.

    Every acquire first deletes expired lease and suppression rows, then counts rows. The
    advisory transaction lock makes each call one atomic step, so a call is a method here.
  */
module LeaseTable {
  import opened Wrappers
  import opened Admission
  import Sets

  datatype Row = Row(leaseId: nat, kind: Kind, key: string, expiresAt: real)

  /** Suppression rows have the primary key (kind, key). */
  type Deadlines = map<(Kind, string), real>

  /** What the two tables mean: the leases with their expiry times, and the suppression deadlines. */
  datatype TimedLedger = TimedLedger(held: map<nat, Lease>, expires: map<nat, real>, deadlines: Deadlines)

  const EMPTY_TIMED := TimedLedger(map[], map[], map[])

  predicate Live(expires: map<nat, real>, id: nat, now: real) {
    id in expires && expires[id] > now
  }

  function LiveLeases(held: map<nat, Lease>, expires: map<nat, real>, now: real): map<nat, Lease> {
    map id | id in held && Live(expires, id, now) :: held[id]
  }

  function LiveDeadlines(deadlines: Deadlines, now: real): Deadlines {
    map entry | entry in deadlines && deadlines[entry] > now :: deadlines[entry]
  }

  function Purged(timed: TimedLedger, now: real): TimedLedger {
    TimedLedger(LiveLeases(timed.held, timed.expires, now),
                map id | id in timed.expires && timed.expires[id] > now :: timed.expires[id],
                LiveDeadlines(timed.deadlines, now))
  }

  function RowUntil(deadlines: Deadlines, kind: Kind, key: string): real {
    if (kind, key) in deadlines then deadlines[(kind, key)] else 0.0
  }

  /** Insert a deadline, or keep the greater one on conflict. */
  function Upsert(deadlines: Deadlines, kind: Kind, key: string, until: real): Deadlines {
    var entry := (kind, key);
    deadlines[entry := if entry in deadlines && deadlines[entry] > until then deadlines[entry] else until]
  }

  function TimedApply(cfg: Config, ttl: real, timed: TimedLedger, op: Op): (TimedLedger, Option<Decision>) {
    match op
    case Acquire(target, scope, id, now) =>
      var live := Purged(timed, now);
      var d := DecideAt(cfg, live.held, RowUntil(live.deadlines, TupleKind, target),
                        RowUntil(live.deadlines, FamilyKind, cfg.FamilyFor(target)), target, scope, now);
      (if d.Allowed? then live.(held := live.held[id := d.lease], expires := live.expires[id := now + ttl]) else live, Some(d))
    case Release(id) => (timed.(held := timed.held - {id}, expires := timed.expires - {id}), None)
    case Suppress(target, wholeFamily, now) =>
      var once := Upsert(timed.deadlines, TupleKind, target, now + cfg.cooldown);
      (timed.(deadlines := if wholeFamily then Upsert(once, FamilyKind, cfg.FamilyFor(target), now + cfg.cooldown) else once), None)
  }

  function TimedAnswers(cfg: Config, ttl: real, timed: TimedLedger, ops: seq<Op>): (answers: seq<Option<Decision>>)
    ensures |answers| == |ops|
    decreases |ops|
  {
    if ops == [] then []
    else var (next, answer) := TimedApply(cfg, ttl, timed, ops[0]); [answer] + TimedAnswers(cfg, ttl, next, ops[1..])
  }

  // ---------------------------------------------------------------- counting rows

  ghost predicate RowsMatch(rows: set<Row>, held: map<nat, Lease>, expires: map<nat, real>) {
    && held.Keys == expires.Keys
    && forall row {:trigger row in rows} :: row in rows <==>
      && row.leaseId in held
      && KeyUnder(held[row.leaseId], row.kind) == Some(row.key)
      && row.expiresAt == expires[row.leaseId]
  }

  function RowsFor(rows: set<Row>, kind: Kind, key: string): set<Row> {
    set row | row in rows && row.kind == kind && row.key == key
  }

  lemma {:induction false} OneRowPerLease(some: set<Row>, ids: set<nat>)
    requires forall row, other | row in some && other in some && row.leaseId == other.leaseId :: row == other
    requires forall row | row in some :: row.leaseId in ids
    requires forall id | id in ids :: exists row :: row in some && row.leaseId == id
    ensures |some| == |ids|
    decreases some
  {
    if some == {} {
      assert ids == {};
    } else {
      var row :| row in some;
      forall id | id in ids - {row.leaseId} ensures exists other :: other in some - {row} && other.leaseId == id {
        var other :| other in some && other.leaseId == id;
        assert other in some - {row};
      }
      OneRowPerLease(some - {row}, ids - {row.leaseId});
    }
  }

  /** A table count is the number of leases under that key. */
  lemma RowCountIsHeld(rows: set<Row>, held: map<nat, Lease>, expires: map<nat, real>, kind: Kind, key: string)
    requires RowsMatch(rows, held, expires)
    ensures |RowsFor(rows, kind, key)| == Held(held, kind, key)
  {
    var ids := Holders(held, kind, key);
    forall id | id in ids ensures exists row :: row in RowsFor(rows, kind, key) && row.leaseId == id {
      var row := Row(id, kind, key, expires[id]);
      assert row in rows;
    }
    OneRowPerLease(RowsFor(rows, kind, key), ids);
  }

  /** Exactly when purging is harmless: the row counts left by an acquire at `now` equal the counts of
      all outstanding leases, under every kind and key, if and only if no lease has outlived its TTL. */
  lemma CountsAgreeIffNoneOutlived(held: map<nat, Lease>, expires: map<nat, real>, now: real)
    requires held.Keys == expires.Keys
    ensures (forall kind, key :: Held(LiveLeases(held, expires, now), kind, key) == Held(held, kind, key))
       <==> (forall id | id in held :: expires[id] > now)
  {
    var live := LiveLeases(held, expires, now);
    if forall id | id in held :: expires[id] > now {
      assert live == held;
    } else {
      var id :| id in held && expires[id] <= now;
      var target := held[id].target;
      var some, all := Holders(live, TupleKind, target), Holders(held, TupleKind, target);
      assert some <= all - {id} && id in all;
      Sets.SubsetCard(some, all - {id});
      assert Held(live, TupleKind, target) != Held(held, TupleKind, target);
    }
  }

  /** The same for the answers: over all configurations, deadlines, tuples and scopes, an acquire at `now` is
      answered alike from the live leases and from all outstanding ones if and only if no lease has outlived its TTL. */
  lemma AnswersAgreeIffNoneOutlived(held: map<nat, Lease>, expires: map<nat, real>, now: real)
    requires held.Keys == expires.Keys
    ensures (forall cfg, tupleUntil, familyUntil, target, scope ::
               DecideAt(cfg, LiveLeases(held, expires, now), tupleUntil, familyUntil, target, scope, now)
               == DecideAt(cfg, held, tupleUntil, familyUntil, target, scope, now))
       <==> (forall id | id in held :: expires[id] > now)
  {
    var live := LiveLeases(held, expires, now);
    if forall id | id in held :: expires[id] > now {
      assert live == held;
    } else {
      var id :| id in held && expires[id] <= now;
      OutlivedLeaseChangesAnAnswer(held, expires, now, id);
    }
  }

  /** With a limit that the outstanding leases just fill, an outlived one makes room. */
  lemma OutlivedLeaseChangesAnAnswer(held: map<nat, Lease>, expires: map<nat, real>, now: real, id: nat)
    requires held.Keys == expires.Keys && id in held && expires[id] <= now
    ensures var target := held[id].target;
            var cfg := Config(map[], Held(held, TupleKind, target), 0, 0, 0.0);
      && DecideAt(cfg, LiveLeases(held, expires, now), now, now, target, None, now).Allowed?
      && DecideAt(cfg, held, now, now, target, None, now) == Refused(TupleInflightLimit, None)
  {
    var target := held[id].target;
    var some, all := Holders(LiveLeases(held, expires, now), TupleKind, target), Holders(held, TupleKind, target);
    assert some <= all - {id} && id in all;
    Sets.SubsetCard(some, all - {id});
  }

  // ---------------------------------------------------------------- the lease-row controller

  class LeaseTableController {
    const cfg: Config
    const ttl: real
    var rows: set<Row>
    var suppression: Deadlines
    ghost var held: map<nat, Lease>
    ghost var expires: map<nat, real>

    ghost predicate Valid() reads this {
      RowsMatch(rows, held, expires)
    }

    ghost function View(): TimedLedger reads this {
      TimedLedger(held, expires, suppression)
    }

    constructor (cfg: Config, ttl: real)
      ensures Valid() && this.cfg == cfg && this.ttl == ttl && View() == EMPTY_TIMED
    {
      this.cfg, this.ttl := cfg, ttl;
      rows, suppression, held, expires := {}, map[], map[], map[];
    }

    /** Delete the expired rows of both tables. */
    method CleanupExpired(now: real)
      requires Valid()
      modifies this
      ensures Valid() && View() == Purged(old(View()), now)
    {
      rows := set row | row in rows && row.expiresAt > now;
      suppression := LiveDeadlines(suppression, now);
      held, expires := Purged(View(), now).held, Purged(View(), now).expires;
    }

    function LeaseCount(kind: Kind, key: string): (n: nat)
      requires Valid()
      reads this
      ensures n == Held(held, kind, key)
    {
      RowCountIsHeld(rows, held, expires, kind, key);
      |RowsFor(rows, kind, key)|
    }

    function SuppressedUntil(kind: Kind, key: string): (until: Option<real>)
      reads this
      ensures RowUntil(suppression, kind, key) == if until.Some? then until.value else 0.0
    {
      if (kind, key) in suppression then Some(suppression[(kind, key)]) else None
    }

    method Acquire(target: string, scope: Option<string>, now: real, id: nat) returns (d: Decision)
      requires Valid() && id !in held && now >= 0.0
      modifies this
      ensures Valid()
      ensures (View(), Some(d)) == TimedApply(cfg, ttl, old(View()), Op.Acquire(target, scope, id, now))
    {
      hide RowsMatch, RowUntil, LiveLeases, LiveDeadlines, Holders;
      var family := cfg.FamilyFor(target);
      CleanupExpired(now);
      var tupleUntil, familyUntil := SuppressedUntil(TupleKind, target), SuppressedUntil(FamilyKind, family);
      if tupleUntil.Some? && tupleUntil.value > now {
        return Refused(TupleSuppressed, Some(tupleUntil.value - now));
      }
      if familyUntil.Some? && familyUntil.value > now {
        return Refused(FamilySuppressed, Some(familyUntil.value - now));
      }
      if cfg.tupleLimit > 0 && LeaseCount(TupleKind, target) >= cfg.tupleLimit {
        return Refused(TupleInflightLimit, None);
      }
      if cfg.familyLimit > 0 && LeaseCount(FamilyKind, family) >= cfg.familyLimit {
        return Refused(FamilyInflightLimit, None);
      }
      if Scoped(scope).Some? && cfg.scopeLimit > 0 && LeaseCount(ScopeKind, scope.value) >= cfg.scopeLimit {
        return Refused(ScopeInflightLimit, None);
      }
      PurgeOnlyDrops(old(held), old(expires), now);
      Insert(Lease(target, family, scope), now + ttl, id);
      d := Allowed(Lease(target, family, scope));
    }

    static lemma PurgeOnlyDrops(held: map<nat, Lease>, expires: map<nat, real>, now: real)
      ensures LiveLeases(held, expires, now).Keys <= held.Keys
    {}

    /** One row per kind the lease counts under. */
    method Insert(lease: Lease, expiresAt: real, id: nat)
      requires Valid() && id !in held
      modifies this`rows, this`held, this`expires
      ensures Valid() && held == old(held)[id := lease] && expires == old(expires)[id := expiresAt]
    {
      rows := rows + {Row(id, TupleKind, lease.target, expiresAt), Row(id, FamilyKind, lease.family, expiresAt)};
      if Scoped(lease.scope).Some? {
        rows := rows + {Row(id, ScopeKind, lease.scope.value, expiresAt)};
      }
      held, expires := held[id := lease], expires[id := expiresAt];
    }

    method Release(id: nat)
      requires Valid()
      modifies this
      ensures Valid()
      ensures View() == TimedApply(cfg, ttl, old(View()), Op.Release(id)).0
    {
      rows := set row | row in rows && row.leaseId != id;
      held, expires := held - {id}, expires - {id};
    }

    method Suppress(target: string, wholeFamily: bool, now: real)
      requires Valid()
      modifies this`suppression
      ensures Valid()
      ensures View() == TimedApply(cfg, ttl, old(View()), Op.Suppress(target, wholeFamily, now)).0
    {
      var until := now + cfg.cooldown;
      suppression := Upsert(suppression, TupleKind, target, until);
      if wholeFamily {
        suppression := Upsert(suppression, FamilyKind, cfg.FamilyFor(target), until);
      }
    }
  }

  // ---------------------------------------------------------------- refinement

  /** The table may have dropped a deadline only once it has passed. */
  ghost predicate DeadlinesRelated(table: Deadlines, kind: Kind, memory: map<string, real>, clock: real) {
    forall key {:trigger Until(memory, key)} ::
      if (kind, key) in table then key in memory && memory[key] == table[(kind, key)] else Until(memory, key) <= clock
  }

  ghost predicate Related(timed: TimedLedger, ledger: Ledger, clock: real) {
    && timed.held == ledger.held
    && timed.held.Keys == timed.expires.Keys
    && DeadlinesRelated(timed.deadlines, TupleKind, ledger.tupleUntil, clock)
    && DeadlinesRelated(timed.deadlines, FamilyKind, ledger.familyUntil, clock)
  }

  /** Call times never go back, lease identifiers are fresh, and no acquire finds a lease that has outlived its TTL. */
  predicate Punctual(cfg: Config, ttl: real, timed: TimedLedger, clock: real, ops: seq<Op>)
    decreases |ops|
  {
    ops != [] ==>
      var op, next := ops[0], TimedApply(cfg, ttl, timed, ops[0]).0;
      match op
      case Acquire(_, _, id, now) =>
        && clock <= now
        && id !in timed.held
        && (forall id | id in timed.held :: Live(timed.expires, id, now))
        && Punctual(cfg, ttl, next, now, ops[1..])
      case Release(_) => Punctual(cfg, ttl, next, clock, ops[1..])
      case Suppress(_, _, now) => clock <= now && Punctual(cfg, ttl, next, now, ops[1..])
  }

  lemma PurgedDeadlines(table: Deadlines, kind: Kind, memory: map<string, real>, clock: real, now: real)
    requires DeadlinesRelated(table, kind, memory, clock) && 0.0 <= clock <= now
    ensures DeadlinesRelated(LiveDeadlines(table, now), kind, memory, now)
    ensures forall key :: Until(memory, key) > now || RowUntil(LiveDeadlines(table, now), kind, key) > now
                      ==> Until(memory, key) == RowUntil(LiveDeadlines(table, now), kind, key)
  {}

  lemma AcquireAgrees(cfg: Config, ttl: real, timed: TimedLedger, ledger: Ledger, clock: real, op: Op)
    requires Related(timed, ledger, clock) && 0.0 <= clock
    requires op.Acquire? && clock <= op.now
    requires forall id | id in timed.held :: Live(timed.expires, id, op.now)
    ensures TimedApply(cfg, ttl, timed, op).1 == Apply(cfg, ledger, op).1
    ensures Related(TimedApply(cfg, ttl, timed, op).0, Apply(cfg, ledger, op).0, op.now)
  {
    PurgedDeadlines(timed.deadlines, TupleKind, ledger.tupleUntil, clock, op.now);
    PurgedDeadlines(timed.deadlines, FamilyKind, ledger.familyUntil, clock, op.now);
    assert Purged(timed, op.now).held == timed.held;
    hide DeadlinesRelated, LiveDeadlines;
  }

  lemma UpsertRelated(table: Deadlines, kind: Kind, memory: map<string, real>, clock: real, now: real, key: string, until: real)
    requires DeadlinesRelated(table, kind, memory, clock) && 0.0 <= clock <= now <= until
    ensures DeadlinesRelated(Upsert(table, kind, key, until), kind, Extend(memory, key, until), now)
  {
    var table', memory' := Upsert(table, kind, key, until), Extend(memory, key, until);
    forall other: string
      ensures if (kind, other) in table' then other in memory' && memory'[other] == table'[(kind, other)]
              else Until(memory', other) <= now
    {
      assert if (kind, other) in table then other in memory && memory[other] == table[(kind, other)] else Until(memory, other) <= clock;
      assert (kind, other) == (kind, key) <==> other == key;
    }
  }

  lemma UpsertElsewhere(table: Deadlines, kind: Kind, memory: map<string, real>, clock: real, now: real, other: Kind, key: string, until: real)
    requires DeadlinesRelated(table, kind, memory, clock) && clock <= now && other != kind
    ensures DeadlinesRelated(Upsert(table, other, key, until), kind, memory, now)
  {
    var table' := Upsert(table, other, key, until);
    forall k: string
      ensures if (kind, k) in table' then k in memory && memory[k] == table'[(kind, k)] else Until(memory, k) <= now
    {
      assert (kind, k) != (other, key);
      assert if (kind, k) in table then k in memory && memory[k] == table[(kind, k)] else Until(memory, k) <= clock;
    }
  }

  lemma StepAgrees(cfg: Config, ttl: real, timed: TimedLedger, ledger: Ledger, clock: real, op: Op)
    requires Related(timed, ledger, clock) && 0.0 <= clock && 0.0 <= cfg.cooldown
    requires op.Release? || clock <= op.now
    requires op.Acquire? ==> forall id | id in timed.held :: Live(timed.expires, id, op.now)
    ensures TimedApply(cfg, ttl, timed, op).1 == Apply(cfg, ledger, op).1
    ensures Related(TimedApply(cfg, ttl, timed, op).0, Apply(cfg, ledger, op).0, if op.Release? then clock else op.now)
  {
    hide DeadlinesRelated, Upsert;
    match op
    case Acquire(_, _, _, _) => AcquireAgrees(cfg, ttl, timed, ledger, clock, op);
    case Release(_) =>
    case Suppress(target, wholeFamily, now) =>
      var until, family := now + cfg.cooldown, cfg.FamilyFor(target);
      UpsertRelated(timed.deadlines, TupleKind, ledger.tupleUntil, clock, now, target, until);
      UpsertElsewhere(timed.deadlines, FamilyKind, ledger.familyUntil, clock, now, TupleKind, target, until);
      if wholeFamily {
        var once := Upsert(timed.deadlines, TupleKind, target, until);
        UpsertElsewhere(once, TupleKind, Extend(ledger.tupleUntil, target, until), now, now, FamilyKind, family, until);
        UpsertRelated(once, FamilyKind, ledger.familyUntil, now, now, family, until);
      }
  }

  /** Refinement over whole runs: with a clock that never goes back and no lease outliving its TTL, the
      lease-row controller gives every call the very answer the counter-map controller gives. */
  lemma {:induction false} TableRefinesCounters(cfg: Config, ttl: real, timed: TimedLedger, ledger: Ledger, clock: real, ops: seq<Op>)
    requires Related(timed, ledger, clock) && 0.0 <= clock && 0.0 <= cfg.cooldown
    requires Punctual(cfg, ttl, timed, clock, ops)
    ensures TimedAnswers(cfg, ttl, timed, ops) == Answers(cfg, ledger, ops)
    decreases |ops|
  {
    hide Related;
    if ops != [] {
      StepAgrees(cfg, ttl, timed, ledger, clock, ops[0]);
      TableRefinesCounters(cfg, ttl, TimedApply(cfg, ttl, timed, ops[0]).0, Apply(cfg, ledger, ops[0]).0,
                           if ops[0].Release? then clock else ops[0].now, ops[1..]);
    }
  }

  /** The TTL condition is needed: whatever the TTL, a lease still held when it runs out lets the table
      admit a second holder of a tuple limited to one, which the in-process controller refuses. */
  lemma OutlivedLeaseIsAdmittedTwice(cfg: Config, ttl: real, target: string, start: real)
    requires cfg.tupleLimit == 1 && cfg.familyLimit == 0 && start >= 0.0 && ttl >= 0.0
    ensures var ops := [Acquire(target, None, 0, start), Acquire(target, None, 1, start + ttl)];
      && TimedAnswers(cfg, ttl, EMPTY_TIMED, ops)[1] == Some(Allowed(Lease(target, cfg.FamilyFor(target), None)))
      && Answers(cfg, EMPTY_LEDGER, ops)[1] == Some(Refused(TupleInflightLimit, None))
  {
    var first, second := Acquire(target, None, 0, start), Acquire(target, None, 1, start + ttl);
    assert [first, second][1..] == [second];
    var lease := Lease(target, cfg.FamilyFor(target), None);
    var nothing: map<nat, Lease> := map[];
    assert Holders(nothing, TupleKind, target) == {};
    HeldAfterAdd(nothing, 0, lease, TupleKind, target);
    assert Purged(EMPTY_TIMED, start).held == nothing;
    assert Purged(TimedApply(cfg, ttl, EMPTY_TIMED, first).0, start + ttl).held == nothing;
  }
}
