/** The same interleaved dispatches over the lease-row controller, as several gateways run them: a lease row that
    has outlived its TTL is purged by the next acquire, while its dispatch goes on. */
module TimedWorld {
  import opened Wrappers
  import opened Admission
  import opened LeaseTable
  import W = World
  import Sets

  datatype TimedWorld = TimedWorld(table: TimedLedger, jobs: map<nat, W.Job>)

  const START := TimedWorld(EMPTY_TIMED, map[])

  /** The answer the table gives. */
  function Answer(cfg: Config, table: TimedLedger, target: string, scope: Option<string>, now: real): Decision {
    var live := Purged(table, now);
    DecideAt(cfg, live.held, RowUntil(live.deadlines, TupleKind, target), RowUntil(live.deadlines, FamilyKind, cfg.FamilyFor(target)),
             target, scope, now)
  }

  predicate Enabled(cfg: Config, w: TimedWorld, action: W.Action) {
    match action
    case Spawn(id, job) => id !in w.jobs && W.Initial(job)
    case Go(id, input, now) =>
      && id in w.jobs
      && var step := W.Step(cfg, w.jobs[id], input);
         && step.Some?
         && (step.value.1.Take? ==>
               var e := step.value.1;
               e.allowed == Answer(cfg, w.table, e.target, w.jobs[id].plan.scope, now).Allowed?)
  }

  function Affected(cfg: Config, ttl: real, table: TimedLedger, id: nat, scope: Option<string>, effect: W.Effect, now: real): TimedLedger {
    match effect
    case Quiet => table
    case Take(target, _) => TimedApply(cfg, ttl, table, Acquire(target, scope, id, now)).0
    case Drop => TimedApply(cfg, ttl, table, Release(id)).0
    case Black(target, whole) => TimedApply(cfg, ttl, table, Suppress(target, whole, now)).0
  }

  function After(cfg: Config, ttl: real, w: TimedWorld, action: W.Action): TimedWorld
    requires Enabled(cfg, w, action)
  {
    match action
    case Spawn(id, job) => w.(jobs := w.jobs[id := job])
    case Go(id, input, now) =>
      var (job, effect) := W.Step(cfg, w.jobs[id], input).value;
      TimedWorld(Affected(cfg, ttl, w.table, id, w.jobs[id].plan.scope, effect, now), w.jobs[id := job])
  }

  predicate Schedule(cfg: Config, ttl: real, w: TimedWorld, actions: seq<W.Action>)
    decreases |actions|
  {
    actions != [] ==> Enabled(cfg, w, actions[0]) && Schedule(cfg, ttl, After(cfg, ttl, w, actions[0]), actions[1..])
  }

  function Play(cfg: Config, ttl: real, w: TimedWorld, actions: seq<W.Action>): TimedWorld
    requires Schedule(cfg, ttl, w, actions)
    decreases |actions|
  {
    if actions == [] then w else Play(cfg, ttl, After(cfg, ttl, w, actions[0]), actions[1..])
  }

  // ---------------------------------------------------------------- what the table always is

  /** Every row set belongs to a dispatch that holds that lease; a dispatch may hold a lease without rows. */
  predicate RowsOwned(cfg: Config, held: map<nat, Lease>, jobs: map<nat, W.Job>) {
    forall id | id in held :: id in jobs && W.LeaseOf(cfg, jobs[id]) == Some(held[id])
  }

  ghost predicate Inv(cfg: Config, w: TimedWorld) {
    && WithinLimits(cfg, w.table.held) && FamiliesAgree(cfg, w.table.held)
    && w.table.held.Keys == w.table.expires.Keys
    && (forall id | id in w.jobs :: W.InChain(w.jobs[id]))
    && RowsOwned(cfg, w.table.held, w.jobs)
  }

  lemma FewerLeasesWithinLimits(cfg: Config, held: map<nat, Lease>, fewer: map<nat, Lease>)
    requires WithinLimits(cfg, held) && FamiliesAgree(cfg, held)
    requires forall id | id in fewer :: id in held && fewer[id] == held[id]
    ensures WithinLimits(cfg, fewer) && FamiliesAgree(cfg, fewer)
  {
    forall kind, key ensures Held(fewer, kind, key) <= Held(held, kind, key) {
      Sets.SubsetCard(Holders(fewer, kind, key), Holders(held, kind, key));
    }
    hide Held, Holders;
  }

  /** An acquire that is granted from the live rows keeps every limit over the rows. */
  lemma AcquireKeepsLimits(cfg: Config, ttl: real, table: TimedLedger, target: string, scope: Option<string>, id: nat, now: real)
    requires WithinLimits(cfg, table.held) && FamiliesAgree(cfg, table.held) && id !in table.held
    ensures var held := TimedApply(cfg, ttl, table, Acquire(target, scope, id, now)).0.held;
      && WithinLimits(cfg, held) && FamiliesAgree(cfg, held)
      && held == if Answer(cfg, table, target, scope, now).Allowed?
                 then LiveLeases(table.held, table.expires, now)[id := Lease(target, cfg.FamilyFor(target), scope)]
                 else LiveLeases(table.held, table.expires, now)
  {
    var live := Purged(table, now);
    FewerLeasesWithinLimits(cfg, table.held, live.held);
    var ledger := Ledger(live.held, map[target := RowUntil(live.deadlines, TupleKind, target)],
                         map[cfg.FamilyFor(target) := RowUntil(live.deadlines, FamilyKind, cfg.FamilyFor(target))]);
    ApplyKeepsLimits(cfg, ledger, Acquire(target, scope, id, now));
    hide WithinLimits, FamiliesAgree, RowUntil, LiveLeases;
  }

  lemma StepKeepsInv(cfg: Config, ttl: real, w: TimedWorld, action: W.Action)
    requires Inv(cfg, w) && Enabled(cfg, w, action)
    ensures Inv(cfg, After(cfg, ttl, w, action))
  {
    match action
    case Spawn(id, job) =>
    case Go(id, input, now) =>
      var (job', effect) := W.Step(cfg, w.jobs[id], input).value;
      W.EffectSound(cfg, w.jobs[id], input);
      AffectedKeeps(cfg, ttl, w.table, w.jobs, id, job', effect, now);
      hide W.Step, Affected, W.InChain, W.LeaseOf, WithinLimits, FamiliesAgree, RowsOwned, Answer;
  }

  lemma AffectedKeeps(cfg: Config, ttl: real, table: TimedLedger, jobs: map<nat, W.Job>, id: nat, job': W.Job, effect: W.Effect, now: real)
    requires WithinLimits(cfg, table.held) && FamiliesAgree(cfg, table.held) && table.held.Keys == table.expires.Keys
    requires RowsOwned(cfg, table.held, jobs) && id in jobs
    requires effect.Take? ==> effect.allowed == Answer(cfg, table, effect.target, jobs[id].plan.scope, now).Allowed?
    requires match effect
      case Take(target, allowed) =>
        && W.LeaseOf(cfg, jobs[id]) == None
        && W.LeaseOf(cfg, job') == if allowed then Some(Lease(target, cfg.FamilyFor(target), jobs[id].plan.scope)) else None
      case Drop => W.LeaseOf(cfg, job').None?
      case _ => W.LeaseOf(cfg, job') == W.LeaseOf(cfg, jobs[id])
    ensures var table' := Affected(cfg, ttl, table, id, jobs[id].plan.scope, effect, now);
      && WithinLimits(cfg, table'.held) && FamiliesAgree(cfg, table'.held) && table'.held.Keys == table'.expires.Keys
      && RowsOwned(cfg, table'.held, jobs[id := job'])
  {
    hide W.LeaseOf;
    match effect
    case Quiet =>
    case Take(target, _) =>
      AcquireKeepsLimits(cfg, ttl, table, target, jobs[id].plan.scope, id, now);
      hide WithinLimits, FamiliesAgree;
    case Drop =>
      FewerLeasesWithinLimits(cfg, table.held, table.held - {id});
      hide WithinLimits, FamiliesAgree;
    case Black(_, _) =>
  }

  lemma {:induction false} PlayKeepsInv(cfg: Config, ttl: real, w: TimedWorld, actions: seq<W.Action>)
    requires Inv(cfg, w) && Schedule(cfg, ttl, w, actions)
    ensures Inv(cfg, Play(cfg, ttl, w, actions))
    decreases |actions|
  {
    if actions != [] {
      StepKeepsInv(cfg, ttl, w, actions[0]);
      hide Inv, Enabled, After;
      PlayKeepsInv(cfg, ttl, After(cfg, ttl, w, actions[0]), actions[1..]);
    }
  }

  lemma StartInv(cfg: Config)
    ensures Inv(cfg, START)
  {
    forall kind, key ensures Held(EMPTY_TIMED.held, kind, key) == 0 {
      assert Holders(EMPTY_TIMED.held, kind, key) == {};
    }
  }

  // ---------------------------------------------------------------- handles

  function Handles(cfg: Config, w: TimedWorld, kind: Kind, key: string): set<nat> {
    set id | id in w.jobs && W.HasHandle(w.jobs[id]) && W.LeaseOf(cfg, w.jobs[id]).Some?
          && KeyUnder(W.LeaseOf(cfg, w.jobs[id]).value, kind) == Some(key)
  }

  /** The handles whose lease rows an acquire has purged. */
  function Outlived(cfg: Config, w: TimedWorld, kind: Kind, key: string): set<nat> {
    set id | id in Handles(cfg, w, kind, key) && id !in w.table.held
  }

  /** In every state of every schedule, whatever the TTL, the handles on a tuple, family or scope exceed its positive
      limit by no more than the handles whose lease has outlived its TTL. */
  lemma HandlesWithinLimitsAndOutlived(cfg: Config, ttl: real, actions: seq<W.Action>, kind: Kind, key: string)
    requires Schedule(cfg, ttl, START, actions) && cfg.Limit(kind) > 0
    ensures var w := Play(cfg, ttl, START, actions);
      |Handles(cfg, w, kind, key)| <= cfg.Limit(kind) + |Outlived(cfg, w, kind, key)|
  {
    StartInv(cfg);
    PlayKeepsInv(cfg, ttl, START, actions);
    var w := Play(cfg, ttl, START, actions);
    var all, gone, held := Handles(cfg, w, kind, key), Outlived(cfg, w, kind, key), Holders(w.table.held, kind, key);
    assert all - gone <= held;
    Sets.SubsetCard(all - gone, held);
    assert gone <= all && |all| == |gone| + |all - gone| by { assert all == gone + (all - gone); }
    assert Held(w.table.held, kind, key) <= cfg.Limit(kind);
  }

  // ---------------------------------------------------------------- the exact condition

  /** Every lease a dispatch holds has its rows. */
  predicate Complete(cfg: Config, w: TimedWorld) {
    forall id | id in w.jobs && W.LeaseOf(cfg, w.jobs[id]).Some? :: id in w.table.held
  }

  predicate Asks(cfg: Config, w: TimedWorld, action: W.Action) {
    action.Go? && action.id in w.jobs
    && var step := W.Step(cfg, w.jobs[action.id], action.input); step.Some? && step.value.1.Take?
  }

  /** No dispatch that asks for admission finds a lease that is held and has outlived its TTL. */
  predicate Punctual(cfg: Config, ttl: real, w: TimedWorld, actions: seq<W.Action>)
    requires Schedule(cfg, ttl, w, actions)
    decreases |actions|
  {
    actions != [] ==>
      && (Asks(cfg, w, actions[0]) ==> forall id | id in w.table.held :: Live(w.table.expires, id, actions[0].now))
      && Punctual(cfg, ttl, After(cfg, ttl, w, actions[0]), actions[1..])
  }

  /** At every point of a schedule the table holds the rows of exactly the leases the dispatches hold. */
  predicate AlwaysComplete(cfg: Config, ttl: real, w: TimedWorld, actions: seq<W.Action>)
    requires Schedule(cfg, ttl, w, actions)
    decreases |actions|
  {
    Complete(cfg, w) && (actions != [] ==> AlwaysComplete(cfg, ttl, After(cfg, ttl, w, actions[0]), actions[1..]))
  }

  lemma StepComplete(cfg: Config, ttl: real, w: TimedWorld, action: W.Action)
    requires Inv(cfg, w) && Complete(cfg, w) && Enabled(cfg, w, action)
    ensures Complete(cfg, After(cfg, ttl, w, action)) <==>
      (Asks(cfg, w, action) ==> forall id | id in w.table.held :: Live(w.table.expires, id, action.now))
  {
    match action
    case Spawn(id, job) =>
    case Go(id, input, now) =>
      var (job', effect) := W.Step(cfg, w.jobs[id], input).value;
      W.EffectSound(cfg, w.jobs[id], input);
      hide W.Step, W.InChain, W.LeaseOf, WithinLimits, FamiliesAgree;
      match effect
      case Take(target, allowed) =>
        AcquireKeepsLimits(cfg, ttl, w.table, target, w.jobs[id].plan.scope, id, now);
        hide Answer, TimedApply;
        var w' := After(cfg, ttl, w, action);
        assert w'.jobs == w.jobs[id := job'];
        if other :| other in w.table.held && !Live(w.table.expires, other, now) {
          assert other != id && other in w'.jobs && w'.jobs[other] == w.jobs[other] && other !in w'.table.held;
        }
      case _ =>
  }

  /** Exactly when the table is as good as the counters: over every schedule, it always holds the rows of exactly
      the held leases if and only if no dispatch that asks finds a lease that has outlived its TTL. */
  lemma {:induction false} CompleteIffPunctual(cfg: Config, ttl: real, w: TimedWorld, actions: seq<W.Action>)
    requires Inv(cfg, w) && Complete(cfg, w) && Schedule(cfg, ttl, w, actions)
    ensures AlwaysComplete(cfg, ttl, w, actions) <==> Punctual(cfg, ttl, w, actions)
    decreases |actions|
  {
    if actions != [] {
      StepComplete(cfg, ttl, w, actions[0]);
      StepKeepsInv(cfg, ttl, w, actions[0]);
      hide Inv, Complete, Enabled, After, Asks, Live;
      var next := After(cfg, ttl, w, actions[0]);
      if Complete(cfg, next) {
        CompleteIffPunctual(cfg, ttl, next, actions[1..]);
      } else {
        NotComplete(cfg, ttl, next, actions[1..]);
      }
    }
  }

  lemma NotComplete(cfg: Config, ttl: real, w: TimedWorld, actions: seq<W.Action>)
    requires Schedule(cfg, ttl, w, actions) && !Complete(cfg, w)
    ensures !AlwaysComplete(cfg, ttl, w, actions)
  {}

  lemma {:induction false} CompleteAtTheEnd(cfg: Config, ttl: real, w: TimedWorld, actions: seq<W.Action>)
    requires Schedule(cfg, ttl, w, actions) && AlwaysComplete(cfg, ttl, w, actions)
    ensures Complete(cfg, Play(cfg, ttl, w, actions))
    decreases |actions|
  {
    if actions != [] {
      CompleteAtTheEnd(cfg, ttl, After(cfg, ttl, w, actions[0]), actions[1..]);
    }
  }

  /** And then the limits bound the handles, in every state of every such schedule over several gateways. */
  lemma PunctualHandlesWithinLimits(cfg: Config, ttl: real, actions: seq<W.Action>, kind: Kind, key: string)
    requires Schedule(cfg, ttl, START, actions) && Punctual(cfg, ttl, START, actions) && cfg.Limit(kind) > 0
    ensures |Handles(cfg, Play(cfg, ttl, START, actions), kind, key)| <= cfg.Limit(kind)
  {
    StartInv(cfg);
    CompleteIffPunctual(cfg, ttl, START, actions);
    CompleteAtTheEnd(cfg, ttl, START, actions);
    HandlesWithinLimitsAndOutlived(cfg, ttl, actions, kind, key);
    assert Outlived(cfg, Play(cfg, ttl, START, actions), kind, key) == {};
  }

  /** The condition is needed: whatever the TTL, two streams of a tuple limited to one, the second admitted when the
      first one's lease runs out, hold two handles. */
  lemma OutlivedHandlesExceedLimit(cfg: Config, ttl: real, plan: W.Plan, target: string)
    requires plan.targets == [target] && plan.scope.None? && ttl >= 0.0 && cfg.tupleLimit == 1
    ensures var actions := TwoStreams(plan, ttl);
      && Schedule(cfg, ttl, START, actions)
      && Handles(cfg, Play(cfg, ttl, START, actions), TupleKind, target) == {0, 1}
      && |Handles(cfg, Play(cfg, ttl, START, actions), TupleKind, target)| > cfg.Limit(TupleKind)
  {
    var actions := TwoStreams(plan, ttl);
    FirstStream(cfg, ttl, plan, target);
    SecondStream(cfg, ttl, plan, target);
    var w2 := TwoIdle(plan);
    var w4 := OneHandle(cfg, ttl, plan, target);
    assert actions[1..][1..] == actions[2..] && actions[2..][1..] == actions[3..] && actions[3..][1..] == actions[4..];
    assert actions[4..][1..] == actions[5..] && actions[5..][1..] == [];
    var w1 := After(cfg, ttl, START, actions[0]);
    assert After(cfg, ttl, w1, actions[1]) == w2;
    hide After, Handles, OneHandle, TwoIdle;
    PlayOne(cfg, ttl, After(cfg, ttl, w4, actions[4]), actions[5..]);
    PlayOne(cfg, ttl, w4, actions[4..]);
    PlayOne(cfg, ttl, After(cfg, ttl, w2, actions[2]), actions[3..]);
    PlayOne(cfg, ttl, w2, actions[2..]);
    PlayOne(cfg, ttl, w1, actions[1..]);
    PlayOne(cfg, ttl, START, actions);
  }

  function Idle(plan: W.Plan): W.Job { W.StreamJob(plan, W.P.Free, W.Elsewhere) }

  function Holding(plan: W.Plan): W.Job { W.StreamJob(plan, W.P.HandleHeld(0, 1), W.Elsewhere) }

  function TwoStreams(plan: W.Plan, ttl: real): seq<W.Action> {
    [W.Spawn(0, Idle(plan)), W.Spawn(1, Idle(plan)),
     W.Go(0, W.Emit(W.F.Leased(0, 1)), 0.0), W.Go(0, W.Emit(W.F.Started(0, 1)), 0.0),
     W.Go(1, W.Emit(W.F.Leased(0, 1)), ttl), W.Go(1, W.Emit(W.F.Started(0, 1)), ttl)]
  }

  function TwoIdle(plan: W.Plan): TimedWorld { TimedWorld(EMPTY_TIMED, map[0 := Idle(plan), 1 := Idle(plan)]) }

  function OneHandle(cfg: Config, ttl: real, plan: W.Plan, target: string): TimedWorld {
    TimedWorld(TimedLedger(map[0 := Lease(target, cfg.FamilyFor(target), None)], map[0 := ttl], map[]), map[0 := Holding(plan), 1 := Idle(plan)])
  }

  lemma NobodyLive(cfg: Config, table: TimedLedger, target: string, now: real)
    requires table.deadlines == map[] && (forall id | id in table.held :: !Live(table.expires, id, now)) && now >= 0.0
    requires table.held.Keys == table.expires.Keys
    ensures Answer(cfg, table, target, None, now) == Allowed(Lease(target, cfg.FamilyFor(target), None))
    ensures Purged(table, now) == EMPTY_TIMED
  {
    var live := Purged(table, now);
    assert live.held == map[] && live.deadlines == map[] && live.expires == map[];
    forall kind, key ensures Held(live.held, kind, key) == 0 {
      assert Holders(live.held, kind, key) == {};
    }
  }

  lemma FirstStream(cfg: Config, ttl: real, plan: W.Plan, target: string)
    requires plan.targets == [target] && plan.scope.None?
    ensures var first, second := W.Go(0, W.Emit(W.F.Leased(0, 1)), 0.0), W.Go(0, W.Emit(W.F.Started(0, 1)), 0.0);
      Enabled(cfg, TwoIdle(plan), first) && (
      var w := After(cfg, ttl, TwoIdle(plan), first);
      Enabled(cfg, w, second) && After(cfg, ttl, w, second) == OneHandle(cfg, ttl, plan, target))
  {
    NobodyLive(cfg, EMPTY_TIMED, target, 0.0);
    hide Answer;
    var w := After(cfg, ttl, TwoIdle(plan), W.Go(0, W.Emit(W.F.Leased(0, 1)), 0.0));
    assert w.jobs == map[0 := W.StreamJob(plan, W.P.LeaseHeld(0, 1), W.Elsewhere), 1 := Idle(plan)];
    AllowedApply(cfg, ttl, EMPTY_TIMED, target, 0, 0.0);
    hide TimedApply;
  }

  lemma AllowedApply(cfg: Config, ttl: real, table: TimedLedger, target: string, id: nat, now: real)
    requires Answer(cfg, table, target, None, now) == Allowed(Lease(target, cfg.FamilyFor(target), None)) && Purged(table, now) == EMPTY_TIMED
    ensures TimedApply(cfg, ttl, table, Acquire(target, None, id, now)).0
         == TimedLedger(map[id := Lease(target, cfg.FamilyFor(target), None)], map[id := now + ttl], map[])
  {
    hide Purged;
  }

  lemma SecondStream(cfg: Config, ttl: real, plan: W.Plan, target: string)
    requires plan.targets == [target] && plan.scope.None? && ttl >= 0.0
    ensures var w4 := OneHandle(cfg, ttl, plan, target);
            var first, second := W.Go(1, W.Emit(W.F.Leased(0, 1)), ttl), W.Go(1, W.Emit(W.F.Started(0, 1)), ttl);
      Enabled(cfg, w4, first) && (
      var w := After(cfg, ttl, w4, first);
      Enabled(cfg, w, second) && Handles(cfg, After(cfg, ttl, w, second), TupleKind, target) == {0, 1})
  {
    var w4 := OneHandle(cfg, ttl, plan, target);
    NobodyLive(cfg, w4.table, target, ttl);
    hide Answer, TimedApply;
    var w := After(cfg, ttl, w4, W.Go(1, W.Emit(W.F.Leased(0, 1)), ttl));
    assert w.jobs == map[0 := Holding(plan), 1 := W.StreamJob(plan, W.P.LeaseHeld(0, 1), W.Elsewhere)];
    var w' := After(cfg, ttl, w, W.Go(1, W.Emit(W.F.Started(0, 1)), ttl));
    assert w'.jobs == map[0 := Holding(plan), 1 := Holding(plan)];
  }

  lemma PlayOne(cfg: Config, ttl: real, w: TimedWorld, actions: seq<W.Action>)
    requires actions != [] && Enabled(cfg, w, actions[0]) && Schedule(cfg, ttl, After(cfg, ttl, w, actions[0]), actions[1..])
    ensures Schedule(cfg, ttl, w, actions) && Play(cfg, ttl, w, actions) == Play(cfg, ttl, After(cfg, ttl, w, actions[0]), actions[1..])
  {}
}
