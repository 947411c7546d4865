/** Any number of interleaved dispatches over one shared admission controller.

    Synchronous dispatches run the step machine; a streaming dispatch is represented by the lease
    events it emits, in any order its lease discipline allows (Stream.EveryStreamCleanedUp shows
    that every stream keeps that discipline), and by its awaited cleanup. The cleanup of either kind
    may be cancelled, or may raise when it writes the audit log; the release that follows in the
    `finally` block is then skipped. A dispatch identifier also names the one lease a
    dispatch can hold.
  */
module World {
  import opened Wrappers
  import opened ProviderErrors
  import opened Admission
  import F = Fallback
  import M = DispatchMachine
  import P = FallbackProperties
  import Sets

  datatype Plan = Plan(rules: F.Rules, targets: seq<string>, scope: Option<string>)

  /** Where a streaming dispatch is: outside its cleanup, awaiting it, or thrown out of it. */
  datatype Place = Elsewhere | InCleanup | CutOff

  datatype Job =
    | SyncJob(plan: Plan, local: M.Local)
    | StreamJob(plan: Plan, hold: P.Hold, place: Place)

  datatype Input =
    | Sync(input: M.Input)
    | Emit(event: F.Event)
    | EnterCleanup
    | CancelCleanup
    | RaiseInCleanup

  datatype World = World(ledger: Ledger, jobs: map<nat, Job>)

  datatype Action =
    | Spawn(id: nat, job: Job)
    | Go(id: nat, input: Input, now: real)

  function Families(cfg: Config, targets: seq<string>): (families: seq<string>)
    ensures |families| == |targets|
    ensures forall i | 0 <= i < |targets| :: families[i] == cfg.FamilyFor(targets[i])
  {
    seq(|targets|, i requires 0 <= i < |targets| => cfg.FamilyFor(targets[i]))
  }

  /** What a step does to the controller. */
  datatype Effect =
    | Quiet
    | Take(target: string, allowed: bool)
    | Drop
    | Black(target: string, wholeFamily: bool)

  function EventEffect(targets: seq<string>, event: F.Event): Effect {
    if event.entry >= |targets| then Quiet
    else match event
      case Leased(i, _) => Take(targets[i], true)
      case Suppressed(i, whole) => Black(targets[i], whole)
      case Released(_, _) => Drop
      case _ => Quiet
  }

  function ProblemEffect(targets: seq<string>, i: nat, problem: Problem): Effect {
    var events := F.Suppression(problem, i);
    if events == [] then Quiet else EventEffect(targets, events[0])
  }

  /** The controller effect of one step of a job; `None` when the job cannot take the step. */
  function Step(cfg: Config, job: Job, input: Input): Option<(Job, Effect)> {
    match (job, input)
    case (SyncJob(plan, l), Sync(input)) =>
      var next := M.Advance(plan.rules, Families(cfg, plan.targets), l, input);
      if next.None? || (!l.pc.AtEntry? && !l.pc.Done? && l.i >= |plan.targets|) then None
      else
        var effect := match (l.pc, input)
          case (Asking(_), Answer(allowed)) => Take(plan.targets[l.i], allowed)
          case (Asking(_), AskError(timedOut)) => ProblemEffect(plan.targets, l.i, F.AskProblem(timedOut))
          case (Holding(_), Begin(Some(problem))) => ProblemEffect(plan.targets, l.i, problem)
          case (Running(_), End(Err(problem))) => ProblemEffect(plan.targets, l.i, problem)
          case (Releasing(_, _), ReleaseDone) => Drop
          case _ => Quiet;
        Some((SyncJob(plan, next.value), effect))
    case (StreamJob(plan, hold, place), Emit(event)) =>
      var next := P.Moved(hold, event);
      if next == P.Broken || event.entry >= |plan.targets| || place.CutOff? || (place.InCleanup? <==> !event.Cleaned?) then None
      else Some((StreamJob(plan, next, Elsewhere), EventEffect(plan.targets, event)))
    case (StreamJob(plan, hold, place), EnterCleanup) =>
      if place.Elsewhere? && hold.HandleHeld? then Some((StreamJob(plan, hold, InCleanup), Quiet)) else None
    case (StreamJob(plan, hold, place), CancelCleanup) =>
      if place.InCleanup? then Some((StreamJob(plan, hold, CutOff), Quiet)) else None
    case (StreamJob(plan, hold, place), RaiseInCleanup) =>
      if place.InCleanup? then Some((StreamJob(plan, hold, CutOff), Quiet)) else None
    case _ => None
  }

  // ---------------------------------------------------------------- leases and handles of a job

  function LeaseAt(cfg: Config, plan: Plan, i: nat): Option<Lease> {
    if i < |plan.targets| then Some(Lease(plan.targets[i], cfg.FamilyFor(plan.targets[i]), plan.scope)) else None
  }

  function LeaseOf(cfg: Config, job: Job): Option<Lease> {
    match job
    case SyncJob(plan, l) =>
      if l.pc.Holding? || l.pc.Running? || l.pc.Cleaning? || l.pc.Releasing? || l.pc.Lost? then LeaseAt(cfg, plan, l.i) else None
    case StreamJob(plan, hold, _) =>
      if hold.LeaseHeld? || hold.HandleHeld? || hold.HandleGone? then LeaseAt(cfg, plan, hold.entry) else None
  }

  /** From `start` returning until `_cleanup_remote` returns. */
  predicate HasHandle(job: Job) {
    match job
    case SyncJob(_, l) => l.pc.Running? || l.pc.Cleaning? || l.pc.Lost?
    case StreamJob(_, hold, _) => hold.HandleHeld?
  }

  predicate InChain(job: Job) {
    match job
    case SyncJob(plan, l) => (l.pc.Holding? || l.pc.Running? || l.pc.Cleaning? || l.pc.Releasing? || l.pc.Lost?) ==> l.i < |plan.targets|
    case StreamJob(plan, hold, place) =>
      && ((hold.LeaseHeld? || hold.HandleHeld? || hold.HandleGone?) ==> hold.entry < |plan.targets|)
      && (!place.Elsewhere? ==> hold.HandleHeld?)
  }

  predicate Initial(job: Job) {
    match job
    case SyncJob(_, l) => l == M.START
    case StreamJob(_, hold, place) => hold == P.Free && place == Elsewhere
  }

  predicate Enabled(cfg: Config, w: World, action: Action) {
    match action
    case Spawn(id, job) => id !in w.jobs && Initial(job)
    case Go(id, input, now) =>
      && id in w.jobs
      && var step := Step(cfg, w.jobs[id], input);
         && step.Some?
         && (step.value.1.Take? ==>
               var e := step.value.1;
               e.allowed == Decide(cfg, w.ledger, e.target, w.jobs[id].plan.scope, now).Allowed?)
  }

  function Affected(cfg: Config, ledger: Ledger, id: nat, scope: Option<string>, effect: Effect, now: real): Ledger {
    match effect
    case Quiet => ledger
    case Take(target, _) => Apply(cfg, ledger, Acquire(target, scope, id, now)).0
    case Drop => Apply(cfg, ledger, Release(id)).0
    case Black(target, whole) => Apply(cfg, ledger, Suppress(target, whole, now)).0
  }

  function After(cfg: Config, w: World, action: Action): World
    requires Enabled(cfg, w, action)
  {
    match action
    case Spawn(id, job) => w.(jobs := w.jobs[id := job])
    case Go(id, input, now) =>
      var (job, effect) := Step(cfg, w.jobs[id], input).value;
      World(Affected(cfg, w.ledger, id, w.jobs[id].plan.scope, effect, now), w.jobs[id := job])
  }

  // ---------------------------------------------------------------- the invariant

  /** The ledger is exactly the leases the dispatches hold. */
  ghost predicate Inv(cfg: Config, w: World) {
    && WithinLimits(cfg, w.ledger.held) && FamiliesAgree(cfg, w.ledger.held)
    && (forall id | id in w.jobs :: InChain(w.jobs[id]))
    && (forall id | id in w.ledger.held :: id in w.jobs)
    && (forall id | id in w.jobs :: Matches(cfg, w.ledger.held, id, w.jobs[id]))
  }

  predicate Matches(cfg: Config, held: map<nat, Lease>, id: nat, job: Job) {
    if LeaseOf(cfg, job).Some? then id in held && held[id] == LeaseOf(cfg, job).value else id !in held
  }

  /** How the effect of a step relates to the lease held before and after it. */
  lemma EffectSound(cfg: Config, job: Job, input: Input)
    requires InChain(job) && Step(cfg, job, input).Some?
    ensures var (job', effect) := Step(cfg, job, input).value;
      && InChain(job')
      && job'.plan == job.plan
      && (match effect
          case Take(target, allowed) =>
            && LeaseOf(cfg, job) == None
            && LeaseOf(cfg, job') == if allowed then Some(Lease(target, cfg.FamilyFor(target), job.plan.scope)) else None
          case Drop => LeaseOf(cfg, job').None?
          case _ => LeaseOf(cfg, job') == LeaseOf(cfg, job))
  {
    hide F.Judge, F.Exhausted, F.FamilyExhausted;
  }

  lemma AffectedHeld(cfg: Config, ledger: Ledger, id: nat, scope: Option<string>, effect: Effect, now: real)
    requires WithinLimits(cfg, ledger.held) && FamiliesAgree(cfg, ledger.held)
    requires effect.Take? ==> id !in ledger.held && effect.allowed == Decide(cfg, ledger, effect.target, scope, now).Allowed?
    ensures var held := Affected(cfg, ledger, id, scope, effect, now).held;
      && WithinLimits(cfg, held) && FamiliesAgree(cfg, held)
      && held == match effect
          case Take(target, true) => ledger.held[id := Lease(target, cfg.FamilyFor(target), scope)]
          case Drop => ledger.held - {id}
          case _ => ledger.held
  {
    match effect
    case Quiet =>
    case Take(target, _) => ApplyKeepsLimits(cfg, ledger, Acquire(target, scope, id, now));
    case Drop => ApplyKeepsLimits(cfg, ledger, Release(id));
    case Black(_, _) =>
  }

  lemma StepKeepsInv(cfg: Config, w: World, action: Action)
    requires Inv(cfg, w) && Enabled(cfg, w, action)
    ensures Inv(cfg, After(cfg, w, action))
  {
    match action
    case Spawn(id, job) =>
    case Go(id, input, now) =>
      var (job', effect) := Step(cfg, w.jobs[id], input).value;
      EffectSound(cfg, w.jobs[id], input);
      assert Matches(cfg, w.ledger.held, id, w.jobs[id]);
      AffectedHeld(cfg, w.ledger, id, w.jobs[id].plan.scope, effect, now);
      hide Step, Affected, InChain, LeaseOf, WithinLimits, FamiliesAgree, Decide;
      var held := Affected(cfg, w.ledger, id, w.jobs[id].plan.scope, effect, now).held;
      forall other | other in w.jobs && other != id ensures Matches(cfg, held, other, w.jobs[other]) {
        assert Matches(cfg, w.ledger.held, other, w.jobs[other]);
      }
  }

  predicate Schedule(cfg: Config, w: World, actions: seq<Action>)
    decreases |actions|
  {
    actions != [] ==> Enabled(cfg, w, actions[0]) && Schedule(cfg, After(cfg, w, actions[0]), actions[1..])
  }

  function Play(cfg: Config, w: World, actions: seq<Action>): World
    requires Schedule(cfg, w, actions)
    decreases |actions|
  {
    if actions == [] then w else Play(cfg, After(cfg, w, actions[0]), actions[1..])
  }

  lemma {:induction false} PlayKeepsInv(cfg: Config, w: World, actions: seq<Action>)
    requires Inv(cfg, w) && Schedule(cfg, w, actions)
    ensures Inv(cfg, Play(cfg, w, actions))
    decreases |actions|
  {
    hide Inv, Enabled;
    if actions != [] {
      StepKeepsInv(cfg, w, actions[0]);
      PlayKeepsInv(cfg, After(cfg, w, actions[0]), actions[1..]);
    }
  }

  // ---------------------------------------------------------------- safety

  function Handles(cfg: Config, w: World, kind: Kind, key: string): set<nat> {
    set id | id in w.jobs && HasHandle(w.jobs[id]) && LeaseOf(cfg, w.jobs[id]).Some?
          && KeyUnder(LeaseOf(cfg, w.jobs[id]).value, kind) == Some(key)
  }

  lemma HandleInsideLease(job: Job, cfg: Config)
    requires HasHandle(job) && InChain(job)
    ensures LeaseOf(cfg, job).Some?
  {}

  /** In every state of every interleaving of any number of dispatches, cancelled ones included, the
      remote handles on a tuple, a provider family or a workload scope never exceed its positive limit. */
  lemma HandlesWithinLimits(cfg: Config, actions: seq<Action>, kind: Kind, key: string)
    requires Schedule(cfg, World(EMPTY_LEDGER, map[]), actions)
    requires cfg.Limit(kind) > 0
    ensures var w := Play(cfg, World(EMPTY_LEDGER, map[]), actions);
      && |Handles(cfg, w, kind, key)| <= cfg.Limit(kind)
      && (forall id | id in w.jobs && HasHandle(w.jobs[id]) :: LeaseOf(cfg, w.jobs[id]).Some?)
  {
    var start := World(EMPTY_LEDGER, map[]);
    StartInv(cfg);
    PlayKeepsInv(cfg, start, actions);
    var w := Play(cfg, start, actions);
    forall id | id in Handles(cfg, w, kind, key) ensures id in Holders(w.ledger.held, kind, key) {
      assert Matches(cfg, w.ledger.held, id, w.jobs[id]);
    }
    Sets.SubsetCard(Handles(cfg, w, kind, key), Holders(w.ledger.held, kind, key));
    assert Held(w.ledger.held, kind, key) <= cfg.Limit(kind);
    forall id | id in w.jobs && HasHandle(w.jobs[id]) ensures LeaseOf(cfg, w.jobs[id]).Some? {
      HandleInsideLease(w.jobs[id], cfg);
    }
  }

  lemma StartInv(cfg: Config)
    ensures Inv(cfg, World(EMPTY_LEDGER, map[]))
  {
    forall kind, key ensures Held(EMPTY_LEDGER.held, kind, key) == 0 {
      assert Holders(EMPTY_LEDGER.held, kind, key) == {};
    }
  }

  predicate Finished(job: Job) {
    match job
    case SyncJob(_, l) => l.pc.Done? || l.pc.Lost?
    case StreamJob(_, hold, place) => hold.Free? || place.CutOff?
  }

  predicate CleaningUp(job: Job) {
    match job
    case SyncJob(_, l) => l.pc.Cleaning?
    case StreamJob(_, _, place) => place.InCleanup?
  }

  predicate LostLease(job: Job) {
    match job
    case SyncJob(_, l) => l.pc.Lost?
    case StreamJob(_, hold, place) => place.CutOff?
  }

  function Cancelling(job: Job): Input { if job.SyncJob? then Sync(M.Cancel) else CancelCleanup }

  function Raising(job: Job): Input { if job.SyncJob? then Sync(M.CleanRaised) else RaiseInCleanup }

  /** The cleanup a dispatch, synchronous or streaming, awaits is cancelled or raises. */
  predicate BreaksCleanup(w: World, action: Action) {
    && action.Go? && action.id in w.jobs && CleaningUp(w.jobs[action.id])
    && (action.input == Cancelling(w.jobs[action.id]) || action.input == Raising(w.jobs[action.id]))
  }

  predicate NoCleanupBroken(cfg: Config, w: World, actions: seq<Action>)
    requires Schedule(cfg, w, actions)
    decreases |actions|
  {
    actions != [] ==> !BreaksCleanup(w, actions[0]) && NoCleanupBroken(cfg, After(cfg, w, actions[0]), actions[1..])
  }

  ghost predicate NoneLost(w: World) { forall id | id in w.jobs :: !LostLease(w.jobs[id]) }

  /** A lease is lost at exactly the steps that break a cleanup. */
  lemma LostIffBroken(cfg: Config, w: World, action: Action)
    requires Enabled(cfg, w, action)
    ensures forall id | id in w.jobs && LostLease(w.jobs[id]) :: id in After(cfg, w, action).jobs && LostLease(After(cfg, w, action).jobs[id])
    ensures NoneLost(w) ==> (NoneLost(After(cfg, w, action)) <==> !BreaksCleanup(w, action))
  {
    var jobs := After(cfg, w, action).jobs;
    assert forall id | id in w.jobs && id != action.id :: id in jobs && jobs[id] == w.jobs[id];
    if action.Go? {
      LostHere(cfg, w.jobs[action.id], action.input);
    }
    hide Step, LostLease, CleaningUp, Affected;
    assert action.id in jobs;
    assert forall id | id in jobs && id != action.id :: id in w.jobs;
  }

  lemma LostHere(cfg: Config, job: Job, input: Input)
    requires Step(cfg, job, input).Some?
    ensures !LostLease(job)
    ensures LostLease(Step(cfg, job, input).value.0) <==> CleaningUp(job) && (input == Cancelling(job) || input == Raising(job))
  {
    hide F.Judge, F.Exhausted, F.FamilyExhausted;
  }

  lemma {:induction false} NoneLostIffNoneBroken(cfg: Config, w: World, actions: seq<Action>)
    requires Schedule(cfg, w, actions)
    ensures NoneLost(Play(cfg, w, actions)) <==> NoneLost(w) && NoCleanupBroken(cfg, w, actions)
    decreases |actions|
  {
    if actions != [] {
      LostIffBroken(cfg, w, actions[0]);
      hide Enabled, LostLease, BreaksCleanup;
      NoneLostIffNoneBroken(cfg, After(cfg, w, actions[0]), actions[1..]);
    }
  }

  /** Leases return: once every dispatch has ended, the controller holds nothing if and only if, at no step of
      the schedule, the cleanup of a synchronous or streaming dispatch was cancelled or raised. */
  lemma NothingHeldIffNoCleanupBroken(cfg: Config, actions: seq<Action>)
    requires Schedule(cfg, World(EMPTY_LEDGER, map[]), actions)
    requires var w := Play(cfg, World(EMPTY_LEDGER, map[]), actions); forall id | id in w.jobs :: Finished(w.jobs[id])
    ensures var w := Play(cfg, World(EMPTY_LEDGER, map[]), actions);
      w.ledger.held == map[] <==> NoCleanupBroken(cfg, World(EMPTY_LEDGER, map[]), actions)
  {
    StartInv(cfg);
    PlayKeepsInv(cfg, World(EMPTY_LEDGER, map[]), actions);
    NoneLostIffNoneBroken(cfg, World(EMPTY_LEDGER, map[]), actions);
    FinishedHoldsOnlyLost(cfg, Play(cfg, World(EMPTY_LEDGER, map[]), actions));
    hide Inv, Schedule, Play;
  }

  lemma FinishedHoldsOnlyLost(cfg: Config, w: World)
    requires Inv(cfg, w) && (forall id | id in w.jobs :: Finished(w.jobs[id]))
    ensures w.ledger.held == map[] <==> NoneLost(w)
  {
    forall id | id in w.jobs ensures id in w.ledger.held <==> LostLease(w.jobs[id]) {
      assert Matches(cfg, w.ledger.held, id, w.jobs[id]);
    }
    if w.ledger.held != map[] {
      var id :| id in w.ledger.held;
      assert id in w.jobs;
    }
  }

  /** A broken cleanup keeps its lease for good: cancelling it and its raising are possible whenever a dispatch of
      either kind is cleaning up, and no later step of any dispatch gives that lease back. */
  lemma BrokenCleanupKeepsLease(cfg: Config, w: World, id: nat, raises: bool, now: real, actions: seq<Action>)
    requires Inv(cfg, w) && id in w.jobs && CleaningUp(w.jobs[id])
    ensures var broken := Go(id, if raises then Raising(w.jobs[id]) else Cancelling(w.jobs[id]), now);
      Enabled(cfg, w, broken) && LeaseOf(cfg, w.jobs[id]).Some? && (
      var w' := After(cfg, w, broken);
      Schedule(cfg, w', actions) ==>
        id in Play(cfg, w', actions).ledger.held && Play(cfg, w', actions).ledger.held[id] == LeaseOf(cfg, w.jobs[id]).value)
  {
    assert InChain(w.jobs[id]) && Matches(cfg, w.ledger.held, id, w.jobs[id]);
    var w' := After(cfg, w, Go(id, if raises then Raising(w.jobs[id]) else Cancelling(w.jobs[id]), now));
    if Schedule(cfg, w', actions) {
      LostStays(cfg, w', id, actions);
    }
  }

  /** A whole schedule, for any limits: one stream of one tuple, admitted at time 0, whose cleanup raises. Nothing
      is cancelled, everything has ended, and the lease is still held. */
  lemma RaisingCleanupLeavesLease(cfg: Config, plan: Plan, target: string)
    requires plan.targets == [target]
    ensures var start := World(EMPTY_LEDGER, map[]);
            var actions := [Spawn(0, StreamJob(plan, P.Free, Elsewhere)), Go(0, Emit(F.Leased(0, 1)), 0.0), Go(0, Emit(F.Started(0, 1)), 0.0),
                            Go(0, EnterCleanup, 0.0), Go(0, RaiseInCleanup, 0.0)];
      Schedule(cfg, start, actions) && (
      var w := Play(cfg, start, actions);
      0 in w.ledger.held && w.jobs.Keys == {0} && Finished(w.jobs[0]))
  {
    var w0 := World(EMPTY_LEDGER, map[]);
    var actions := [Spawn(0, StreamJob(plan, P.Free, Elsewhere)), Go(0, Emit(F.Leased(0, 1)), 0.0), Go(0, Emit(F.Started(0, 1)), 0.0),
                    Go(0, EnterCleanup, 0.0), Go(0, RaiseInCleanup, 0.0)];
    var w1 := After(cfg, w0, actions[0]);
    FirstLease(cfg, plan, target);
    var w2 := After(cfg, w1, actions[1]);
    ThrownOut(cfg, plan, w2);
    var w3 := After(cfg, w2, actions[2]);
    var w4 := After(cfg, w3, actions[3]);
    assert actions[1..][1..] == actions[2..] && actions[2..][1..] == actions[3..] && actions[3..][1..] == actions[4..] && actions[4..][1..] == [];
    hide Enabled, After, Finished, Step;
    PlayOne(cfg, w4, actions[4..]);
    PlayOne(cfg, w3, actions[3..]);
    PlayOne(cfg, w2, actions[2..]);
    PlayOne(cfg, w1, actions[1..]);
    PlayOne(cfg, w0, actions);
  }

  lemma FirstLease(cfg: Config, plan: Plan, target: string)
    requires plan.targets == [target]
    ensures var w1 := World(EMPTY_LEDGER, map[0 := StreamJob(plan, P.Free, Elsewhere)]);
            var lease := Go(0, Emit(F.Leased(0, 1)), 0.0);
      && Enabled(cfg, w1, lease)
      && After(cfg, w1, lease).jobs == map[0 := StreamJob(plan, P.LeaseHeld(0, 1), Elsewhere)] && 0 in After(cfg, w1, lease).ledger.held
  {
    forall kind, key ensures Held(EMPTY_LEDGER.held, kind, key) == 0 {
      assert Holders(EMPTY_LEDGER.held, kind, key) == {};
    }
  }

  /** The rest of the stream leaves the ledger alone. */
  lemma ThrownOut(cfg: Config, plan: Plan, w2: World)
    requires w2.jobs == map[0 := StreamJob(plan, P.LeaseHeld(0, 1), Elsewhere)] && |plan.targets| == 1
    ensures var started, cleaning, raised := Go(0, Emit(F.Started(0, 1)), 0.0), Go(0, EnterCleanup, 0.0), Go(0, RaiseInCleanup, 0.0);
      Enabled(cfg, w2, started) && (
      var w3 := After(cfg, w2, started);
      Enabled(cfg, w3, cleaning) && (
      var w4 := After(cfg, w3, cleaning);
      Enabled(cfg, w4, raised) && After(cfg, w4, raised) == World(w2.ledger, map[0 := StreamJob(plan, P.HandleHeld(0, 1), CutOff)])))
  {
    var w3 := After(cfg, w2, Go(0, Emit(F.Started(0, 1)), 0.0));
    assert w3 == World(w2.ledger, map[0 := StreamJob(plan, P.HandleHeld(0, 1), Elsewhere)]);
    var w4 := After(cfg, w3, Go(0, EnterCleanup, 0.0));
    assert w4 == World(w2.ledger, map[0 := StreamJob(plan, P.HandleHeld(0, 1), InCleanup)]);
  }

  lemma PlayOne(cfg: Config, w: World, actions: seq<Action>)
    requires actions != [] && Enabled(cfg, w, actions[0]) && Schedule(cfg, After(cfg, w, actions[0]), actions[1..])
    ensures Schedule(cfg, w, actions) && Play(cfg, w, actions) == Play(cfg, After(cfg, w, actions[0]), actions[1..])
  {}

  lemma {:induction false} LostStays(cfg: Config, w: World, id: nat, actions: seq<Action>)
    requires id in w.jobs && LostLease(w.jobs[id]) && id in w.ledger.held && Schedule(cfg, w, actions)
    ensures id in Play(cfg, w, actions).ledger.held && Play(cfg, w, actions).ledger.held[id] == w.ledger.held[id]
    decreases |actions|
  {
    if actions != [] {
      LostStep(cfg, w, id, actions[0]);
      hide Enabled, LostLease;
      LostStays(cfg, After(cfg, w, actions[0]), id, actions[1..]);
    }
  }

  lemma LostStep(cfg: Config, w: World, id: nat, action: Action)
    requires id in w.jobs && LostLease(w.jobs[id]) && id in w.ledger.held && Enabled(cfg, w, action)
    ensures var w' := After(cfg, w, action);
      id in w'.jobs && LostLease(w'.jobs[id]) && id in w'.ledger.held && w'.ledger.held[id] == w.ledger.held[id]
  {
    assert action.id != id;
    hide Decide;
  }

  // ---------------------------------------------------------------- results

  /** The inputs one dispatch was given in a schedule. */
  function InputsOf(actions: seq<Action>, id: nat): seq<M.Input> {
    if actions == [] then []
    else
      var first := if actions[0].Go? && actions[0].id == id && actions[0].input.Sync? then [actions[0].input.input] else [];
      first + InputsOf(actions[1..], id)
  }

  lemma {:induction false} JobIsItsOwnRun(cfg: Config, w: World, actions: seq<Action>, id: nat)
    requires Schedule(cfg, w, actions) && id in w.jobs && w.jobs[id].SyncJob?
    ensures var w', plan := Play(cfg, w, actions), w.jobs[id].plan;
      && id in w'.jobs && w'.jobs[id].SyncJob? && w'.jobs[id].plan == plan
      && M.Feed(plan.rules, Families(cfg, plan.targets), w.jobs[id].local, InputsOf(actions, id)) == Some(w'.jobs[id].local)
    decreases |actions|
  {
    if actions != [] {
      var next, rest := After(cfg, w, actions[0]), InputsOf(actions[1..], id);
      if actions[0].Go? && actions[0].id == id {
        assert InputsOf(actions, id)[1..] == rest;
      } else {
        assert InputsOf(actions, id) == rest;
      }
      JobIsItsOwnRun(cfg, next, actions[1..], id);
    }
  }

  /** Interleaving does not change what a dispatch does: a dispatch that is not cancelled and ends inside any
      schedule has the verdict and the history the fallback specification gives for its own answers. */
  lemma InterleavedDispatchMeetsSpecification(cfg: Config, w: World, actions: seq<Action>, id: nat)
    requires Schedule(cfg, w, actions) && id in w.jobs && w.jobs[id].SyncJob? && Initial(w.jobs[id])
    requires M.Cancel !in InputsOf(actions, id)
    ensures id in Play(cfg, w, actions).jobs && Play(cfg, w, actions).jobs[id].SyncJob?
    ensures var job := Play(cfg, w, actions).jobs[id];
            var families := Families(cfg, job.plan.targets);
            var chain := M.ScriptOf(job.plan.rules, families, M.START, InputsOf(actions, id));
      && M.Scripted(families, chain) && M.AllAgree(job.plan.rules, families, chain, M.START, InputsOf(actions, id))
      && (M.Ended(job.local) ==> (job.local.pc.verdict, job.local.t) == F.Dispatch(job.plan.rules, chain))
  {
    JobIsItsOwnRun(cfg, w, actions, id);
    var job := Play(cfg, w, actions).jobs[id];
    M.EveryRunMeetsSpecification(job.plan.rules, Families(cfg, job.plan.targets), InputsOf(actions, id));
  }
}
