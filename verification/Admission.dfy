/** Runtime admission control (gpucall/admission.py).

    The specification is a ledger: the leases that are outstanding and the deadlines of
    the active suppressions. `Decide` answers an acquire by counting outstanding leases.
    `AdmissionController` is the in-process implementation, which keeps running counters
    instead; the lease-row implementation is in LeaseTable.dfy and meets the same ledger.
  */
module Admission {
  import opened Wrappers

  datatype Lease = Lease(target: string, family: string, scope: Option<string>)

  datatype Kind = TupleKind | FamilyKind | ScopeKind

  datatype Reason =
    | TupleSuppressed | FamilySuppressed
    | TupleInflightLimit | FamilyInflightLimit | ScopeInflightLimit

  datatype Decision =
    | Allowed(lease: Lease)
    | Refused(reason: Reason, remaining: Option<real>)

  /** A limit of zero (or less) means "no limit". */
  datatype Config = Config(families: map<string, string>,
                           tupleLimit: int, familyLimit: int, scopeLimit: int,
                           cooldown: real)
  {
    function FamilyFor(target: string): string {
      if target in families then families[target] else target
    }

    function Limit(kind: Kind): int {
      match kind
      case TupleKind => tupleLimit
      case FamilyKind => familyLimit
      case ScopeKind => scopeLimit
    }
  }

  datatype Ledger = Ledger(held: map<nat, Lease>,
                           tupleUntil: map<string, real>,
                           familyUntil: map<string, real>)

  const EMPTY_LEDGER := Ledger(map[], map[], map[])

  /** A missing workload scope and an empty one are both "no scope". */
  function Scoped(scope: Option<string>): Option<string> {
    if scope.Some? && scope.value != "" then scope else None
  }

  function KeyUnder(lease: Lease, kind: Kind): Option<string> {
    match kind
    case TupleKind => Some(lease.target)
    case FamilyKind => Some(lease.family)
    case ScopeKind => Scoped(lease.scope)
  }

  function Holders(held: map<nat, Lease>, kind: Kind, key: string): set<nat> {
    set id | id in held && KeyUnder(held[id], kind) == Some(key)
  }

  /** How many outstanding leases count against `key`. */
  function Held(held: map<nat, Lease>, kind: Kind, key: string): nat {
    |Holders(held, kind, key)|
  }

  function Until(deadlines: map<string, real>, key: string): real {
    if key in deadlines then deadlines[key] else 0.0
  }

  predicate Full(cfg: Config, held: map<nat, Lease>, kind: Kind, key: string) {
    cfg.Limit(kind) > 0 && Held(held, kind, key) >= cfg.Limit(kind)
  }

  /** The answer to an acquire, given the outstanding leases and the two deadlines that concern it. */
  function DecideAt(cfg: Config, held: map<nat, Lease>, tupleUntil: real, familyUntil: real,
                    target: string, scope: Option<string>, now: real): Decision {
    var family := cfg.FamilyFor(target);
    if tupleUntil > now then Refused(TupleSuppressed, Some(tupleUntil - now))
    else if familyUntil > now then Refused(FamilySuppressed, Some(familyUntil - now))
    else if Full(cfg, held, TupleKind, target) then Refused(TupleInflightLimit, None)
    else if Full(cfg, held, FamilyKind, family) then Refused(FamilyInflightLimit, None)
    else if Scoped(scope).Some? && Full(cfg, held, ScopeKind, scope.value) then Refused(ScopeInflightLimit, None)
    else Allowed(Lease(target, family, scope))
  }

  /** There is room under a key: its limit is not positive, or is not reached. */
  predicate Room(limit: int, holders: nat) { limit <= 0 || holders < limit }

  /** When an acquire is granted, and what a refusal says, over all configurations and ledgers: both deadlines have
      passed and there is room under every key of the lease. A suppression names the time left; an in-flight reason
      names a kind whose limit is reached, and the first such one. */
  lemma GrantedIff(cfg: Config, held: map<nat, Lease>, tupleUntil: real, familyUntil: real, target: string, scope: Option<string>, now: real)
    ensures var d := DecideAt(cfg, held, tupleUntil, familyUntil, target, scope, now);
            var tupleRoom := Room(cfg.tupleLimit, Held(held, TupleKind, target));
            var familyRoom := Room(cfg.familyLimit, Held(held, FamilyKind, cfg.FamilyFor(target)));
            var scopeRoom := scope.None? || scope.value == "" || Room(cfg.scopeLimit, Held(held, ScopeKind, scope.value));
      && (d.Allowed? <==> tupleUntil <= now && familyUntil <= now && tupleRoom && familyRoom && scopeRoom)
      && (d.Allowed? ==> d.lease == Lease(target, cfg.FamilyFor(target), scope))
      && (d == Refused(TupleSuppressed, Some(tupleUntil - now)) <==> tupleUntil > now)
      && (d == Refused(FamilySuppressed, Some(familyUntil - now)) <==> tupleUntil <= now && familyUntil > now)
      && (d == Refused(TupleInflightLimit, None) <==> tupleUntil <= now && familyUntil <= now && !tupleRoom)
      && (d == Refused(FamilyInflightLimit, None) <==> tupleUntil <= now && familyUntil <= now && tupleRoom && !familyRoom)
      && (d == Refused(ScopeInflightLimit, None) <==>
            tupleUntil <= now && familyUntil <= now && tupleRoom && familyRoom && !scopeRoom)
  {}

  function Decide(cfg: Config, ledger: Ledger, target: string, scope: Option<string>, now: real): Decision {
    DecideAt(cfg, ledger.held, Until(ledger.tupleUntil, target), Until(ledger.familyUntil, cfg.FamilyFor(target)),
             target, scope, now)
  }

  function Extend(deadlines: map<string, real>, key: string, until: real): map<string, real> {
    deadlines[key := if Until(deadlines, key) < until then until else Until(deadlines, key)]
  }

  function Suppressed(cfg: Config, ledger: Ledger, target: string, wholeFamily: bool, now: real): Ledger {
    var until := now + cfg.cooldown;
    ledger.(tupleUntil := Extend(ledger.tupleUntil, target, until),
            familyUntil := if wholeFamily then Extend(ledger.familyUntil, cfg.FamilyFor(target), until)
                           else ledger.familyUntil)
  }

  // ---------------------------------------------------------------- operations and runs

  /** One controller call; `id` names the lease an acquire would create. */
  datatype Op =
    | Acquire(target: string, scope: Option<string>, id: nat, now: real)
    | Release(id: nat)
    | Suppress(target: string, wholeFamily: bool, now: real)

  function Apply(cfg: Config, ledger: Ledger, op: Op): (Ledger, Option<Decision>) {
    match op
    case Acquire(target, scope, id, now) =>
      var d := Decide(cfg, ledger, target, scope, now);
      (if d.Allowed? then ledger.(held := ledger.held[id := d.lease]) else ledger, Some(d))
    case Release(id) => (ledger.(held := ledger.held - {id}), None)
    case Suppress(target, wholeFamily, now) => (Suppressed(cfg, ledger, target, wholeFamily, now), None)
  }

  function Run(cfg: Config, ledger: Ledger, ops: seq<Op>): Ledger
    decreases |ops|
  {
    if ops == [] then ledger else Run(cfg, Apply(cfg, ledger, ops[0]).0, ops[1..])
  }

  function Answers(cfg: Config, ledger: Ledger, ops: seq<Op>): (answers: seq<Option<Decision>>)
    ensures |answers| == |ops|
    decreases |ops|
  {
    if ops == [] then []
    else var (next, answer) := Apply(cfg, ledger, ops[0]); [answer] + Answers(cfg, next, ops[1..])
  }

  /** Lease identifiers are fresh: an acquire never reuses one that is outstanding. */
  predicate FreshIds(cfg: Config, ledger: Ledger, ops: seq<Op>)
    decreases |ops|
  {
    ops != [] ==>
      && (ops[0].Acquire? ==> ops[0].id !in ledger.held)
      && FreshIds(cfg, Apply(cfg, ledger, ops[0]).0, ops[1..])
  }

  // ---------------------------------------------------------------- counting

  lemma HeldAfterAdd(held: map<nat, Lease>, id: nat, lease: Lease, kind: Kind, key: string)
    requires id !in held
    ensures Held(held[id := lease], kind, key)
         == Held(held, kind, key) + if KeyUnder(lease, kind) == Some(key) then 1 else 0
  {
    var more := held[id := lease];
    forall other ensures other in more <==> other in held || other == id {}
    hide KeyUnder;
    var before, after := Holders(held, kind, key), Holders(more, kind, key);
    if KeyUnder(lease, kind) == Some(key) {
      assert after == before + {id};
    } else {
      assert after == before;
    }
  }

  lemma HeldAfterRemove(held: map<nat, Lease>, id: nat, kind: Kind, key: string)
    requires id in held
    ensures Held(held - {id}, kind, key)
         == Held(held, kind, key) - if KeyUnder(held[id], kind) == Some(key) then 1 else 0
  {
    var left := held - {id};
    forall other ensures other in left <==> other in held && other != id {}
    var before, after := Holders(held, kind, key), Holders(left, kind, key);
    if KeyUnder(held[id], kind) == Some(key) {
      assert after == before - {id};
    } else {
      assert after == before;
    }
  }

  // ---------------------------------------------------------------- invariants of every run

  ghost predicate FamiliesAgree(cfg: Config, held: map<nat, Lease>) {
    forall id | id in held :: held[id].family == cfg.FamilyFor(held[id].target)
  }

  ghost predicate WithinLimits(cfg: Config, held: map<nat, Lease>) {
    forall kind, key {:trigger Held(held, kind, key)} :: cfg.Limit(kind) > 0 ==> Held(held, kind, key) <= cfg.Limit(kind)
  }

  lemma ApplyKeepsLimits(cfg: Config, ledger: Ledger, op: Op)
    requires WithinLimits(cfg, ledger.held) && FamiliesAgree(cfg, ledger.held)
    requires op.Acquire? ==> op.id !in ledger.held
    ensures WithinLimits(cfg, Apply(cfg, ledger, op).0.held) && FamiliesAgree(cfg, Apply(cfg, ledger, op).0.held)
  {
    var after := Apply(cfg, ledger, op).0.held;
    forall kind, key | cfg.Limit(kind) > 0
      ensures Held(after, kind, key) <= cfg.Limit(kind)
    {
      match op
      case Acquire(target, scope, id, now) =>
        var d := Decide(cfg, ledger, target, scope, now);
        if d.Allowed? {
          HeldAfterAdd(ledger.held, id, d.lease, kind, key);
        }
      case Release(id) =>
        if id in ledger.held {
          HeldAfterRemove(ledger.held, id, kind, key);
        } else {
          assert after == ledger.held;
        }
      case Suppress(_, _, _) =>
    }
  }

  /** Whatever the calls and their order, no positive limit is ever exceeded. */
  lemma {:induction false} RunKeepsLimits(cfg: Config, ledger: Ledger, ops: seq<Op>)
    requires WithinLimits(cfg, ledger.held) && FamiliesAgree(cfg, ledger.held)
    requires FreshIds(cfg, ledger, ops)
    ensures WithinLimits(cfg, Run(cfg, ledger, ops).held) && FamiliesAgree(cfg, Run(cfg, ledger, ops).held)
    decreases |ops|
  {
    if ops != [] {
      ApplyKeepsLimits(cfg, ledger, ops[0]);
      RunKeepsLimits(cfg, Apply(cfg, ledger, ops[0]).0, ops[1..]);
    }
  }

  /** Blackout: once a tuple (or its whole family) is suppressed until `deadline`, every later
      acquire of it before that deadline is refused, whatever happens in between. */
  lemma {:induction false} SuppressionHolds(cfg: Config, ledger: Ledger, ops: seq<Op>, target: string, deadline: real, i: nat)
    requires Until(ledger.tupleUntil, target) >= deadline
          || Until(ledger.familyUntil, cfg.FamilyFor(target)) >= deadline
    requires i < |ops| && ops[i].Acquire? && ops[i].target == target && ops[i].now < deadline
    ensures Answers(cfg, ledger, ops)[i].Some? && Answers(cfg, ledger, ops)[i].value.Refused?
    ensures Answers(cfg, ledger, ops)[i].value.reason in {TupleSuppressed, FamilySuppressed}
    ensures Answers(cfg, ledger, ops)[i].value.remaining.Some?
    ensures Answers(cfg, ledger, ops)[i].value.remaining.value > 0.0
    decreases |ops|
  {
    if i > 0 {
      SuppressionHolds(cfg, Apply(cfg, ledger, ops[0]).0, ops[1..], target, deadline, i - 1);
    }
  }

  /** The suppress call that starts a blackout reaches exactly `now + cooldown`, never shortening an older one. */
  lemma SuppressSetsDeadline(cfg: Config, ledger: Ledger, target: string, wholeFamily: bool, now: real, other: string)
    ensures var after := Apply(cfg, ledger, Suppress(target, wholeFamily, now)).0;
      && Until(after.tupleUntil, target) >= now + cfg.cooldown
      && (wholeFamily ==> Until(after.familyUntil, cfg.FamilyFor(target)) >= now + cfg.cooldown)
      && Until(after.tupleUntil, other) >= Until(ledger.tupleUntil, other)
      && Until(after.familyUntil, other) >= Until(ledger.familyUntil, other)
      && (other != target ==> Until(after.tupleUntil, other) == Until(ledger.tupleUntil, other))
      && (!wholeFamily ==> after.familyUntil == ledger.familyUntil)
      && after.held == ledger.held
  {}

  // ---------------------------------------------------------------- the in-process controller

  /** A counter map holds, for every key, exactly the number of outstanding leases, and no zero entry. */
  ghost predicate Tallies(counters: map<string, nat>, held: map<nat, Lease>, kind: Kind) {
    && (forall key {:trigger key in counters} :: key in counters <==> Held(held, kind, key) > 0)
    && (forall key {:trigger counters[key]} | key in counters :: counters[key] == Held(held, kind, key))
  }

  function Inflight(counters: map<string, nat>, key: string): nat {
    if key in counters then counters[key] else 0
  }

  function Incremented(counters: map<string, nat>, key: string): map<string, nat> {
    counters[key := Inflight(counters, key) + 1]
  }

  function Decremented(counters: map<string, nat>, key: string): map<string, nat> {
    if Inflight(counters, key) <= 1 then counters - {key} else counters[key := counters[key] - 1]
  }

  lemma TalliesCount(counters: map<string, nat>, held: map<nat, Lease>, kind: Kind, key: string)
    requires Tallies(counters, held, kind)
    ensures Inflight(counters, key) == Held(held, kind, key)
  {
    assert key in counters <==> Held(held, kind, key) > 0;
  }

  lemma TalliesAfterAdd(counters: map<string, nat>, held: map<nat, Lease>, kind: Kind, id: nat, lease: Lease)
    requires Tallies(counters, held, kind) && id !in held
    ensures var key := KeyUnder(lease, kind);
      Tallies(if key.Some? then Incremented(counters, key.value) else counters, held[id := lease], kind)
  {
    forall key: string ensures Held(held[id := lease], kind, key)
      == Held(held, kind, key) + (if KeyUnder(lease, kind) == Some(key) then 1 else 0)
      && Inflight(counters, key) == Held(held, kind, key)
    {
      HeldAfterAdd(held, id, lease, kind, key);
      TalliesCount(counters, held, kind, key);
    }
  }

  lemma TalliesAfterRemove(counters: map<string, nat>, held: map<nat, Lease>, kind: Kind, id: nat)
    requires Tallies(counters, held, kind) && id in held
    ensures var key := KeyUnder(held[id], kind);
      Tallies(if key.Some? then Decremented(counters, key.value) else counters, held - {id}, kind)
  {
    forall key: string ensures Held(held - {id}, kind, key)
      == Held(held, kind, key) - (if KeyUnder(held[id], kind) == Some(key) then 1 else 0)
      && Inflight(counters, key) == Held(held, kind, key)
    {
      HeldAfterRemove(held, id, kind, key);
      TalliesCount(counters, held, kind, key);
    }
  }

  /** The counters of a set of keys, added up. */
  ghost function Total(counters: map<string, nat>, keys: set<string>): nat {
    if keys == {} then 0
    else var key :| key in keys; Inflight(counters, key) + Total(counters, keys - {key})
  }

  /** The order in which keys are added up does not matter. */
  lemma {:induction false} TotalPick(counters: map<string, nat>, keys: set<string>, key: string)
    requires key in keys
    ensures Total(counters, keys) == Inflight(counters, key) + Total(counters, keys - {key})
    decreases keys
  {
    var first :| first in keys && Total(counters, keys) == Inflight(counters, first) + Total(counters, keys - {first});
    if first != key {
      TotalPick(counters, keys - {first}, key);
      TotalPick(counters, keys - {key}, first);
      assert keys - {first} - {key} == keys - {key} - {first};
    }
  }

  /** Keys without an entry add nothing. */
  lemma {:induction false} TotalExtra(counters: map<string, nat>, keys: set<string>)
    requires counters.Keys <= keys
    ensures Total(counters, keys) == Total(counters, counters.Keys)
    decreases keys
  {
    if keys != counters.Keys {
      var key :| key in keys && key !in counters;
      TotalPick(counters, keys, key);
      TotalExtra(counters, keys - {key});
    }
  }

  function HoldersAmong(held: map<nat, Lease>, kind: Kind, keys: set<string>): set<nat> {
    set id | id in held && KeyUnder(held[id], kind).Some? && KeyUnder(held[id], kind).value in keys
  }

  lemma HoldersSplit(held: map<nat, Lease>, kind: Kind, keys: set<string>, key: string)
    requires key in keys
    ensures |HoldersAmong(held, kind, keys)| == |HoldersAmong(held, kind, keys - {key})| + Held(held, kind, key)
  {
    var rest, here := HoldersAmong(held, kind, keys - {key}), Holders(held, kind, key);
    assert HoldersAmong(held, kind, keys) == rest + here;
    assert rest !! here;
  }

  lemma {:induction false} TotalCountsHolders(counters: map<string, nat>, held: map<nat, Lease>, kind: Kind, keys: set<string>)
    requires Tallies(counters, held, kind)
    ensures Total(counters, keys) == |HoldersAmong(held, kind, keys)|
    decreases keys
  {
    if keys == {} {
      assert HoldersAmong(held, kind, keys) == {};
    } else {
      hide Tallies;
      var key :| key in keys && Total(counters, keys) == Inflight(counters, key) + Total(counters, keys - {key});
      TotalCountsHolders(counters, held, kind, keys - {key});
      TalliesCount(counters, held, kind, key);
      HoldersSplit(held, kind, keys, key);
    }
  }

  /** Conservation between the maps: a family counter is the sum of its tuples' counters, and the
      tuple counters together are the outstanding leases. */
  lemma FamilyCounterIsSumOfTuples(cfg: Config, tuples: map<string, nat>, families: map<string, nat>,
                                   held: map<nat, Lease>, family: string)
    requires Tallies(tuples, held, TupleKind) && Tallies(families, held, FamilyKind) && FamiliesAgree(cfg, held)
    ensures Inflight(families, family) == Total(tuples, set t | t in tuples && cfg.FamilyFor(t) == family)
    ensures Total(tuples, tuples.Keys) == |held|
  {
    TotalOfFamily(cfg, tuples, held, family);
    TotalOfAll(tuples, held);
    TalliesCount(families, held, FamilyKind, family);
  }

  lemma TotalOfFamily(cfg: Config, tuples: map<string, nat>, held: map<nat, Lease>, family: string)
    requires Tallies(tuples, held, TupleKind) && FamiliesAgree(cfg, held)
    ensures Total(tuples, set t | t in tuples && cfg.FamilyFor(t) == family) == Held(held, FamilyKind, family)
  {
    var members := set t | t in tuples && cfg.FamilyFor(t) == family;
    TotalCountsHolders(tuples, held, TupleKind, members);
    forall id | id in held ensures held[id].target in tuples {
      assert id in Holders(held, TupleKind, held[id].target);
    }
    hide Tallies;
    assert HoldersAmong(held, TupleKind, members) == Holders(held, FamilyKind, family);
  }

  lemma TotalOfAll(tuples: map<string, nat>, held: map<nat, Lease>)
    requires Tallies(tuples, held, TupleKind)
    ensures Total(tuples, tuples.Keys) == |held|
  {
    TotalCountsHolders(tuples, held, TupleKind, tuples.Keys);
    forall id | id in held ensures held[id].target in tuples {
      assert id in Holders(held, TupleKind, held[id].target);
    }
    AllAmong(held, tuples.Keys);
  }

  lemma AllAmong(held: map<nat, Lease>, keys: set<string>)
    requires forall id | id in held :: held[id].target in keys
    ensures |HoldersAmong(held, TupleKind, keys)| == |held|
  {
    assert HoldersAmong(held, TupleKind, keys) == held.Keys;
    assert |held.Keys| == |held|;
  }

  class AdmissionController {
    const cfg: Config
    var tupleInflight: map<string, nat>
    var familyInflight: map<string, nat>
    var scopeInflight: map<string, nat>
    var tupleSuppressedUntil: map<string, real>
    var familySuppressedUntil: map<string, real>
    ghost var held: map<nat, Lease>

    ghost predicate Tallied() reads this {
      && Tallies(tupleInflight, held, TupleKind)
      && Tallies(familyInflight, held, FamilyKind)
      && Tallies(scopeInflight, held, ScopeKind)
    }

    ghost predicate Valid() reads this {
      && Tallied()
      && FamiliesAgree(cfg, held)
      && WithinLimits(cfg, held)
    }

    ghost function View(): Ledger reads this {
      Ledger(held, tupleSuppressedUntil, familySuppressedUntil)
    }

    constructor (cfg: Config)
      ensures Valid() && this.cfg == cfg && View() == EMPTY_LEDGER
    {
      this.cfg := cfg;
      tupleInflight, familyInflight, scopeInflight := map[], map[], map[];
      tupleSuppressedUntil, familySuppressedUntil := map[], map[];
      held := map[];
      new;
      forall kind, key ensures Holders(held, kind, key) == {} {}
    }

    method Acquire(target: string, scope: Option<string>, now: real, ghost id: nat) returns (d: Decision)
      requires Valid() && id !in held
      modifies this
      ensures Valid()
      ensures (View(), Some(d)) == Apply(cfg, old(View()), Op.Acquire(target, scope, id, now))
    {
      hide Tallies, FamiliesAgree, WithinLimits;
      ApplyKeepsLimits(cfg, View(), Op.Acquire(target, scope, id, now));
      var family := cfg.FamilyFor(target);
      var tupleUntil := Until(tupleSuppressedUntil, target);
      var familyUntil := Until(familySuppressedUntil, family);
      if tupleUntil > now {
        return Refused(TupleSuppressed, Some(tupleUntil - now));
      }
      if familyUntil > now {
        return Refused(FamilySuppressed, Some(familyUntil - now));
      }
      TalliesCount(tupleInflight, held, TupleKind, target);
      if cfg.tupleLimit > 0 && Inflight(tupleInflight, target) >= cfg.tupleLimit {
        return Refused(TupleInflightLimit, None);
      }
      TalliesCount(familyInflight, held, FamilyKind, family);
      if cfg.familyLimit > 0 && Inflight(familyInflight, family) >= cfg.familyLimit {
        return Refused(FamilyInflightLimit, None);
      }
      if Scoped(scope).Some? {
        TalliesCount(scopeInflight, held, ScopeKind, scope.value);
        if cfg.scopeLimit > 0 && Inflight(scopeInflight, scope.value) >= cfg.scopeLimit {
          return Refused(ScopeInflightLimit, None);
        }
      }
      Count(Lease(target, family, scope), id);
      d := Allowed(Lease(target, family, scope));
    }

    /** The three counter updates an allowed acquire makes. */
    method Count(lease: Lease, ghost id: nat)
      requires Tallied() && id !in held
      modifies this`tupleInflight, this`familyInflight, this`scopeInflight, this`held
      ensures Tallied() && held == old(held)[id := lease]
    {
      TalliesAfterAdd(tupleInflight, held, TupleKind, id, lease);
      TalliesAfterAdd(familyInflight, held, FamilyKind, id, lease);
      TalliesAfterAdd(scopeInflight, held, ScopeKind, id, lease);
      tupleInflight := Incremented(tupleInflight, lease.target);
      familyInflight := Incremented(familyInflight, lease.family);
      if Scoped(lease.scope).Some? {
        scopeInflight := Incremented(scopeInflight, lease.scope.value);
      }
      held := held[id := lease];
    }

    /** Releasing nothing is a no-op; otherwise the lease must be one that is still outstanding. */
    method Release(lease: Option<Lease>, ghost id: nat)
      requires Valid()
      requires lease.Some? ==> id in held && held[id] == lease.value
      modifies this
      ensures Valid()
      ensures View() == if lease.None? then old(View()) else Apply(cfg, old(View()), Op.Release(id)).0
    {
      if lease.None? {
        return;
      }
      hide Tallies, FamiliesAgree, WithinLimits;
      ApplyKeepsLimits(cfg, View(), Op.Release(id));
      Uncount(lease.value, id);
    }

    /** The three counter updates of a release. */
    method Uncount(lease: Lease, ghost id: nat)
      requires Tallied() && id in held && held[id] == lease
      modifies this`tupleInflight, this`familyInflight, this`scopeInflight, this`held
      ensures Tallied() && held == old(held) - {id}
    {
      hide Tallies;
      TalliesAfterRemove(tupleInflight, held, TupleKind, id);
      TalliesAfterRemove(familyInflight, held, FamilyKind, id);
      TalliesAfterRemove(scopeInflight, held, ScopeKind, id);
      tupleInflight := Decremented(tupleInflight, lease.target);
      familyInflight := Decremented(familyInflight, lease.family);
      if Scoped(lease.scope).Some? {
        scopeInflight := Decremented(scopeInflight, lease.scope.value);
      }
      held := held - {id};
    }

    method Suppress(target: string, wholeFamily: bool, now: real)
      requires Valid()
      modifies this
      ensures Valid()
      ensures View() == Apply(cfg, old(View()), Op.Suppress(target, wholeFamily, now)).0
    {
      hide Tallies, FamiliesAgree, WithinLimits;
      var until := now + cfg.cooldown;
      tupleSuppressedUntil := Extend(tupleSuppressedUntil, target, until);
      if wholeFamily {
        familySuppressedUntil := Extend(familySuppressedUntil, cfg.FamilyFor(target), until);
      }
    }
  }
}
