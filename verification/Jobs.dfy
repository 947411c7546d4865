/** Asynchronous jobs, their tasks and their budgets (`submit_async`, `_run_job`, `cancel_job`,
    `LeaseReaper._loop` in gpucall/dispatcher.py; `recover_interrupted_jobs` in gpucall/app.py), over any
    number of gateway processes that share one job store.

    A step is what happens between two suspensions of the event loop, or between two operations on a store
    that several processes use. A cancellation request is delivered the next time the task would resume:
    before its first step the coroutine then never runs, inside `execute_sync` it runs the cancellation
    handler. Reads may be stale: where the source reads a job and writes it back later, the step carries
    what was read.
  */
module Jobs {
  datatype JobState =
    | Queued | Pending | Running
    | Succeeded | Completed | Failed | Cancelled | Expired | CompletedAfterCallerTimeout

  predicate Terminal(s: JobState) {
    s in {Succeeded, Completed, Failed, Cancelled, Expired, CompletedAfterCallerTimeout}
  }

  /** An entry of `_job_tasks`. `Ended` is a finished task whose entry was not removed. */
  datatype Task = NotBegun(cancel: bool) | Executing(cancel: bool) | Ended

  datatype Settlement = Commit | Release

  /** How a run of `_run_job` ended. */
  datatype End =
    | ByResult | ByTupleError | ByCancellation     // through the try block
    | ByEscape                                     // another exception left `execute_sync`
    | ByLateEscape                                 // the state was written, then an exception came before the settlement
    | ByStoredPlan                                 // the plan was only the storage-safe copy
    | Unstarted                                    // cancelled before its first step
    | ByRestart                                    // the process went away

  /** `owner` is the process whose dispatcher has the job's task. */
  datatype System = System(jobs: map<nat, JobState>, storedPlan: map<nat, bool>, owner: map<nat, nat>, tasks: map<nat, Task>,
                           settled: map<nat, seq<Settlement>>, ends: map<nat, End>)

  const EMPTY := System(map[], map[], map[], map[], map[], map[])

  datatype Step =
    | Submit(id: nat, stored: bool, process: nat)
    | Begin(id: nat)
    | Drop(id: nat)
    | Record(id: nat, read: JobState)                     // the attempt recorder writes the job back
    | FinishResult(id: nat)
    | FinishError(id: nat)
    | Escape(id: nat)
    | EscapeLate(id: nat, outcome: End, sawLive: bool)
    | DeliverCancel(id: nat, sawLive: bool)               // `sawLive`: the state read was not terminal
    | RequestCancel(id: nat, process: nat)
    | Reap(id: nat, process: nat)                         // of a job its snapshot showed live
    | Die(id: nat)                                        // the task's process goes away
    | Recover(id: nat, process: nat)                      // the start-up sweep of a process, before it has tasks

  function Cancelling(task: Task): Task {
    match task
    case NotBegun(_) => NotBegun(true)
    case Executing(_) => Executing(true)
    case Ended => Ended
  }

  predicate Owns(s: System, id: nat, process: nat) { id in s.owner && s.owner[id] == process }

  /** `cancel_job` on one process finds only that process's tasks. */
  function Flagged(s: System, id: nat, process: nat): map<nat, Task> {
    if id in s.tasks && Owns(s, id, process) then s.tasks[id := Cancelling(s.tasks[id])] else s.tasks
  }

  /** The state a run's end writes: a cancellation leaves a job alone that it saw in a terminal state. */
  function FinalState(state: JobState, outcome: End, sawLive: bool): JobState {
    if outcome.ByResult? then Completed
    else if outcome.ByCancellation? then if sawLive then Cancelled else state
    else Failed
  }

  predicate ThroughTry(end: End) {
    end in {ByResult, ByTupleError, ByCancellation}
  }

  function Settled(s: System, id: nat, state: JobState, how: Settlement, end: End): System
    requires id in s.settled
  {
    s.(jobs := s.jobs[id := state], tasks := s.tasks - {id}, settled := s.settled[id := s.settled[id] + [how]], ends := s.ends[id := end])
  }

  lemma FlagsIgnoreJobs(s: System, jobs: map<nat, JobState>, id: nat, process: nat)
    ensures Flagged(s.(jobs := jobs), id, process) == Flagged(s, id, process)
  {}

  predicate Known(s: System, id: nat) {
    id in s.jobs && id in s.storedPlan && id in s.owner && id in s.settled
  }

  predicate Interrupted(state: JobState) {
    state in {Queued, Pending, Running}
  }

  predicate Has(s: System, id: nat, task: Task) { Known(s, id) && id in s.tasks && s.tasks[id] == task }

  predicate Enabled(s: System, step: Step) {
    match step
    case Submit(id, _, _) => id !in s.jobs && id !in s.tasks
    case Begin(id) => Has(s, id, NotBegun(false))
    case Drop(id) => Has(s, id, NotBegun(true))
    case Record(id, read) => Known(s, id) && id in s.tasks && s.tasks[id].Executing? && (read == Running || read == s.jobs[id])
    case FinishResult(id) => Has(s, id, Executing(false))
    case FinishError(id) => Has(s, id, Executing(false))
    case Escape(id) => Has(s, id, Executing(false))
    case EscapeLate(id, outcome, sawLive) =>
      ThroughTry(outcome) && Has(s, id, Executing(outcome.ByCancellation?)) && (sawLive || Terminal(s.jobs[id]))
    case DeliverCancel(id, sawLive) => Has(s, id, Executing(true)) && (sawLive || Terminal(s.jobs[id]))
    case RequestCancel(_, _) => true
    case Reap(id, _) => Known(s, id)
    case Die(id) => id in s.tasks
    case Recover(id, process) => Known(s, id) && forall other | other in s.tasks :: !Owns(s, other, process)
  }

  /** `callback`: the reapers were given a `cancel_job` callback. */
  function Act(callback: bool, s: System, step: Step): System
    requires Enabled(s, step)
  {
    match step
    case Submit(id, stored, process) =>
      s.(jobs := s.jobs[id := Queued], storedPlan := s.storedPlan[id := stored], owner := s.owner[id := process],
         tasks := s.tasks[id := NotBegun(false)], settled := s.settled[id := []], ends := s.ends - {id})
    case Begin(id) =>
      if s.storedPlan[id] then s.(jobs := s.jobs[id := Expired], tasks := s.tasks[id := Ended], ends := s.ends[id := ByStoredPlan])
      else s.(jobs := s.jobs[id := Running], tasks := s.tasks[id := Executing(false)])
    case Drop(id) => s.(tasks := s.tasks[id := Ended], ends := s.ends[id := Unstarted])
    case Record(id, read) => s.(jobs := s.jobs[id := read])
    case FinishResult(id) => Settled(s, id, Completed, Commit, ByResult)
    case FinishError(id) => Settled(s, id, Failed, Release, ByTupleError)
    case Escape(id) => s.(tasks := s.tasks - {id}, ends := s.ends[id := ByEscape])
    case EscapeLate(id, outcome, sawLive) =>
      s.(jobs := s.jobs[id := FinalState(s.jobs[id], outcome, sawLive)], tasks := s.tasks - {id}, ends := s.ends[id := ByLateEscape])
    case DeliverCancel(id, sawLive) => Settled(s, id, FinalState(s.jobs[id], ByCancellation, sawLive), Release, ByCancellation)
    case RequestCancel(id, process) => s.(tasks := Flagged(s, id, process))
    case Reap(id, process) => s.(jobs := s.jobs[id := Expired], tasks := if callback then Flagged(s, id, process) else s.tasks)
    case Die(id) => s.(tasks := s.tasks - {id}, ends := if s.tasks[id].Ended? then s.ends else s.ends[id := ByRestart])
    case Recover(id, _) => s.(jobs := s.jobs[id := Expired])
  }

  /** What a task can do next, as the event loop has it: it begins unless it was cancelled before its first step; once
      it executes it runs on until it is cancelled, and its attempts are recorded meanwhile; an ended task does
      nothing. */
  lemma TaskSteps(s: System, id: nat, read: JobState)
    requires Known(s, id) && id in s.tasks
    ensures var task := s.tasks[id];
      && (Enabled(s, Begin(id)) <==> task == NotBegun(false))
      && (Enabled(s, Drop(id)) <==> task == NotBegun(true))
      && (Enabled(s, FinishResult(id)) <==> task == Executing(false))
      && (Enabled(s, FinishError(id)) <==> task == Executing(false))
      && (Enabled(s, Escape(id)) <==> task == Executing(false))
      && (Enabled(s, Record(id, read)) <==> (task == Executing(false) || task == Executing(true)) && (read == Running || read == s.jobs[id]))
      && Enabled(s, Die(id))
  {
    hide Terminal;
  }

  /** Once a cancellation is delivered only the cancellation handler runs. The handler, and a late escape, may have read
      the job before another process ended it. */
  lemma HandlerSteps(s: System, id: nat, outcome: End, sawLive: bool)
    requires Known(s, id) && id in s.tasks
    ensures var task, seen := s.tasks[id], sawLive || Terminal(s.jobs[id]);
      && (Enabled(s, DeliverCancel(id, sawLive)) <==> task == Executing(true) && seen)
      && (Enabled(s, EscapeLate(id, outcome, sawLive)) <==>
            && seen
            && (outcome == ByResult || outcome == ByTupleError || outcome == ByCancellation)
            && task == Executing(outcome == ByCancellation))
  {
    hide Terminal;
  }

  predicate Legal(callback: bool, s: System, steps: seq<Step>)
    decreases |steps|
  {
    steps != [] ==> Enabled(s, steps[0]) && Legal(callback, Act(callback, s, steps[0]), steps[1..])
  }

  function Play(callback: bool, s: System, steps: seq<Step>): System
    requires Legal(callback, s, steps)
    decreases |steps|
  {
    if steps == [] then s else Play(callback, Act(callback, s, steps[0]), steps[1..])
  }

  // ---------------------------------------------------------------- invariant of all runs

  predicate Active(s: System, id: nat) {
    id in s.tasks && !s.tasks[id].Ended?
  }

  /** What is known of one job in every reachable state, whatever other processes do. */
  ghost predicate JobOk(s: System, id: nat)
    requires id in s.jobs
  {
    && Known(s, id)
    && (Active(s, id) ==> id !in s.ends && s.settled[id] == [])
    && (!Active(s, id) ==> id in s.ends)
    && (id in s.ends ==> s.settled[id] == match s.ends[id]
        case ByResult => [Commit]
        case ByTupleError => [Release]
        case ByCancellation => [Release]
        case _ => [])
  }

  ghost predicate Inv(s: System) {
    && (forall id | id in s.tasks :: id in s.jobs)
    && (forall id | id in s.jobs :: JobOk(s, id))
  }

  /** Nothing recorded about one job differs. */
  predicate SameJob(s: System, s': System, id: nat) {
    && (id in s.jobs <==> id in s'.jobs) && (id in s.jobs ==> s'.jobs[id] == s.jobs[id])
    && (id in s.storedPlan <==> id in s'.storedPlan) && (id in s.storedPlan ==> s'.storedPlan[id] == s.storedPlan[id])
    && (id in s.owner <==> id in s'.owner) && (id in s.owner ==> s'.owner[id] == s.owner[id])
    && (id in s.tasks <==> id in s'.tasks) && (id in s.tasks ==> s'.tasks[id] == s.tasks[id])
    && (id in s.settled <==> id in s'.settled) && (id in s.settled ==> s'.settled[id] == s.settled[id])
    && (id in s.ends <==> id in s'.ends) && (id in s.ends ==> s'.ends[id] == s.ends[id])
  }

  lemma OtherJobsUntouched(callback: bool, s: System, step: Step, id: nat)
    requires Enabled(s, step) && id != step.id
    ensures SameJob(s, Act(callback, s, step), id)
  {
    hide Terminal, Interrupted, Owns;
  }

  lemma SameJobOk(s: System, s': System, id: nat)
    requires SameJob(s, s', id) && id in s.jobs && JobOk(s, id)
    ensures JobOk(s', id)
  {}

  predicate EndsTask(step: Step) {
    step.FinishResult? || step.FinishError? || step.EscapeLate? || step.DeliverCancel? || step.Escape? || step.Die?
  }

  /** An active task ends by exactly these steps; how it ended is recorded, and the job is left as it was unless the
      run or its handler wrote to it. */
  lemma TaskEnds(callback: bool, s: System, step: Step)
    requires Inv(s) && Enabled(s, step) && Active(s, step.id)
    ensures var s', id := Act(callback, s, step), step.id;
      && (!Active(s', id) <==> EndsTask(step) || step.Drop? || (step.Begin? && s.storedPlan[id]))
      && (!Active(s', id) <==> id in s'.ends)
      && (step.Drop? ==> s'.ends[id] == Unstarted && s'.jobs[id] == s.jobs[id])
      && (step.Begin? && s.storedPlan[id] ==> s'.ends[id] == ByStoredPlan && s'.jobs[id] == Expired)
      && (step.Begin? && !s.storedPlan[id] ==> s'.tasks[id].Executing? && s'.jobs[id] == Running)
      && (step.Escape? ==> s'.ends[id] == ByEscape && s'.jobs[id] == s.jobs[id])
      && (step.EscapeLate? ==> s'.ends[id] == ByLateEscape)
      && (step.Die? ==> s'.ends[id] == ByRestart && s'.jobs[id] == s.jobs[id])
      && (step.FinishResult? ==> s'.ends[id] == ByResult && s'.jobs[id] == Completed)
      && (step.FinishError? ==> s'.ends[id] == ByTupleError && s'.jobs[id] == Failed)
      && (step.DeliverCancel? ==> s'.ends[id] == ByCancellation)
  {
    assert step.id in s.jobs && JobOk(s, step.id);
    hide Inv, Terminal, Interrupted;
  }

  /** A step keeps the contract of its own job. */
  lemma EndKeepsContract(callback: bool, s: System, step: Step)
    requires Inv(s) && Enabled(s, step) && EndsTask(step)
    ensures var s', id := Act(callback, s, step), step.id; id in s.jobs && id in s'.jobs && JobOk(s', id)
  {
    assert step.id in s.jobs && JobOk(s, step.id);
    hide Inv, Terminal;
  }

  lemma OtherStepKeepsContract(callback: bool, s: System, step: Step)
    requires Inv(s) && Enabled(s, step) && !EndsTask(step)
    ensures var s', id := Act(callback, s, step), step.id;
      && (id in s'.jobs ==> JobOk(s', id)) && (id in s.jobs ==> id in s'.jobs)
      && (id in s'.jobs <==> id in s.jobs || step.Submit?) && (id in s'.tasks ==> id in s'.jobs)
  {
    if step.id in s.jobs {
      assert JobOk(s, step.id);
    }
    assert step.id in s.tasks ==> step.id in s.jobs;
    hide Inv, Terminal, Interrupted;
  }

  lemma StepKeepsInv(callback: bool, s: System, step: Step)
    requires Inv(s) && Enabled(s, step)
    ensures Inv(Act(callback, s, step))
    ensures forall id | id in s.jobs :: id in Act(callback, s, step).jobs
  {
    var s' := Act(callback, s, step);
    hide Act, JobOk, Enabled;
    if EndsTask(step) {
      EndKeepsContract(callback, s, step);
    } else {
      OtherStepKeepsContract(callback, s, step);
    }
    forall id: nat | id != step.id
      ensures (id in s'.jobs <==> id in s.jobs) && (id in s'.tasks <==> id in s.tasks) && (id in s'.jobs ==> JobOk(s', id))
    {
      OtherJobOk(callback, s, step, id);
    }
  }

  lemma OtherJobOk(callback: bool, s: System, step: Step, id: nat)
    requires Inv(s) && Enabled(s, step) && id != step.id
    ensures var s' := Act(callback, s, step);
      (id in s'.jobs <==> id in s.jobs) && (id in s'.tasks <==> id in s.tasks) && (id in s'.jobs ==> JobOk(s', id))
  {
    OtherJobsUntouched(callback, s, step, id);
    hide Act, JobOk, Enabled;
    if id in s.jobs {
      SameJobOk(s, Act(callback, s, step), id);
    }
  }

  lemma {:induction false} PlayKeepsInv(callback: bool, s: System, steps: seq<Step>)
    requires Inv(s) && Legal(callback, s, steps)
    ensures Inv(Play(callback, s, steps))
    decreases |steps|
  {
    if steps != [] {
      StepKeepsInv(callback, s, steps[0]);
      hide Inv, Enabled;
      PlayKeepsInv(callback, Act(callback, s, steps[0]), steps[1..]);
    }
  }

  // ---------------------------------------------------------------- when terminal states are final

  /** A task that will still write to its job of its own accord. */
  predicate Loose(s: System, id: nat) {
    id in s.tasks && id in s.storedPlan
    && (s.tasks[id] == Executing(false) || (s.tasks[id] == NotBegun(false) && !s.storedPlan[id]))
  }

  /** The steps that endanger a terminal state: a write over a terminal state the writer has not seen, and a reap
      or recovery that expires a job while its task goes on, because the task is another process's or because
      there is no callback. */
  predicate Stray(callback: bool, s: System, step: Step)
    requires Enabled(s, step)
  {
    match step
    case Record(id, read) => Terminal(s.jobs[id]) && read != s.jobs[id]
    case DeliverCancel(id, sawLive) => sawLive && Terminal(s.jobs[id]) && s.jobs[id] != Cancelled
    case EscapeLate(id, outcome, sawLive) => outcome.ByCancellation? && sawLive && Terminal(s.jobs[id]) && s.jobs[id] != Cancelled
    case Reap(id, process) =>
      (Terminal(s.jobs[id]) && s.jobs[id] != Expired) || (Loose(s, id) && !(callback && Owns(s, id, process)))
    case Recover(id, process) => (Terminal(s.jobs[id]) && s.jobs[id] != Expired) || Loose(s, id)
    case _ => false
  }

  /** Every terminal state stays what it is. */
  ghost predicate Keeps(s: System, s': System) {
    forall id | id in s.jobs && Terminal(s.jobs[id]) :: id in s'.jobs && s'.jobs[id] == s.jobs[id]
  }

  /** What is known of one job as long as no step was stray. */
  ghost predicate GuardedJob(s: System, id: nat)
    requires id in s.jobs
  {
    && (Terminal(s.jobs[id]) ==> !Loose(s, id))
    && (id in s.tasks && s.tasks[id].NotBegun? && Terminal(s.jobs[id]) ==> s.jobs[id] == Expired)
    && (id in s.ends && s.ends[id] == ByResult ==> s.jobs[id] == Completed)
    && (s.jobs[id] == Completed ==> id in s.ends && s.ends[id] in {ByResult, ByLateEscape})
    && (id in s.ends && s.ends[id] == ByTupleError ==> s.jobs[id] == Failed)
    && (s.jobs[id] == Failed ==> id in s.ends && s.ends[id] in {ByTupleError, ByLateEscape})
    && (id in s.ends && s.ends[id] == ByCancellation ==> s.jobs[id] in {Cancelled, Expired})
    && (s.jobs[id] == Cancelled ==> id in s.ends && s.ends[id] in {ByCancellation, ByLateEscape})
    && (id in s.ends && s.ends[id] == ByStoredPlan ==> s.jobs[id] == Expired)
    && (Terminal(s.jobs[id]) ==> s.jobs[id] in {Completed, Failed, Cancelled, Expired})
    && (Active(s, id) && Terminal(s.jobs[id]) ==> s.jobs[id] == Expired)
  }

  ghost predicate Guarded(s: System) { forall id | id in s.jobs :: GuardedJob(s, id) }

  lemma SameJobGuarded(s: System, s': System, id: nat)
    requires SameJob(s, s', id) && id in s.jobs && GuardedJob(s, id)
    ensures GuardedJob(s', id)
  {}

  lemma EndKeepsTerminal(callback: bool, s: System, step: Step)
    requires Inv(s) && Guarded(s) && Enabled(s, step) && !Stray(callback, s, step) && EndsTask(step)
    ensures var s', id := Act(callback, s, step), step.id;
      id in s.jobs && id in s'.jobs && (Terminal(s.jobs[id]) ==> s'.jobs[id] == s.jobs[id])
  {
    assert step.id in s.jobs && GuardedJob(s, step.id);
    hide Inv, Guarded;
  }

  lemma HandlerKeepsGuard(callback: bool, s: System, step: Step)
    requires Inv(s) && Guarded(s) && Enabled(s, step) && !Stray(callback, s, step) && (step.EscapeLate? || step.DeliverCancel?)
    ensures var s', id := Act(callback, s, step), step.id; id in s'.jobs && GuardedJob(s', id)
  {
    assert step.id in s.jobs && JobOk(s, step.id) && GuardedJob(s, step.id);
    hide Inv, Guarded;
  }

  lemma EndKeepsGuard(callback: bool, s: System, step: Step)
    requires Inv(s) && Guarded(s) && Enabled(s, step) && !Stray(callback, s, step) && EndsTask(step)
    ensures var s', id := Act(callback, s, step), step.id; id in s'.jobs && GuardedJob(s', id)
  {
    if step.EscapeLate? || step.DeliverCancel? {
      HandlerKeepsGuard(callback, s, step);
    } else {
      assert step.id in s.jobs && JobOk(s, step.id) && GuardedJob(s, step.id);
      hide Inv, Guarded, Stray;
    }
  }

  lemma OtherStepKeepsTerminal(callback: bool, s: System, step: Step)
    requires Inv(s) && Guarded(s) && Enabled(s, step) && !Stray(callback, s, step) && !EndsTask(step)
    ensures var s', id := Act(callback, s, step), step.id;
      id in s.jobs && Terminal(s.jobs[id]) ==> id in s'.jobs && s'.jobs[id] == s.jobs[id]
  {
    assert step.id in s.jobs ==> GuardedJob(s, step.id);
    hide Inv, Guarded;
  }

  lemma OtherStepKeepsGuard(callback: bool, s: System, step: Step)
    requires Inv(s) && Guarded(s) && Enabled(s, step) && !Stray(callback, s, step) && !EndsTask(step)
    ensures var s', id := Act(callback, s, step), step.id; id in s'.jobs ==> GuardedJob(s', id)
  {
    if step.id in s.jobs {
      assert JobOk(s, step.id) && GuardedJob(s, step.id);
    }
    hide Inv, Guarded;
  }

  /** A step that is not stray changes no terminal state, and leaves no task that could. */
  lemma StepKeepsGuard(callback: bool, s: System, step: Step)
    requires Inv(s) && Guarded(s) && Enabled(s, step) && !Stray(callback, s, step)
    ensures Guarded(Act(callback, s, step)) && Keeps(s, Act(callback, s, step))
  {
    var s' := Act(callback, s, step);
    hide Act, GuardedJob, Enabled, Stray, Inv, Terminal;
    if EndsTask(step) {
      EndKeepsGuard(callback, s, step);
      EndKeepsTerminal(callback, s, step);
    } else {
      OtherStepKeepsGuard(callback, s, step);
      OtherStepKeepsTerminal(callback, s, step);
    }
    forall id: nat | id != step.id
      ensures id in s'.jobs <==> id in s.jobs
      ensures id in s.jobs ==> s'.jobs[id] == s.jobs[id] && GuardedJob(s', id)
    {
      OtherJobGuarded(callback, s, step, id);
    }
  }

  lemma OtherJobGuarded(callback: bool, s: System, step: Step, id: nat)
    requires Guarded(s) && Enabled(s, step) && id != step.id
    ensures var s' := Act(callback, s, step);
      (id in s'.jobs <==> id in s.jobs) && (id in s.jobs ==> s'.jobs[id] == s.jobs[id] && GuardedJob(s', id))
  {
    OtherJobsUntouched(callback, s, step, id);
    hide Act, GuardedJob, Enabled;
    if id in s.jobs {
      SameJobGuarded(s, Act(callback, s, step), id);
    }
  }

  /** A loose task under a terminal state has a step of its own that changes it. */
  lemma LooseTaskOverwrites(callback: bool, s: System, id: nat)
    requires Inv(s) && id in s.jobs && s.jobs[id] == Expired && Loose(s, id)
    ensures exists step :: Enabled(s, step) && !Stray(callback, s, step) && !Keeps(s, Act(callback, s, step))
  {
    assert JobOk(s, id);
    var step := if s.tasks[id].Executing? then FinishResult(id) else Begin(id);
    assert Enabled(s, step) && !Stray(callback, s, step);
    assert id in s.jobs && Act(callback, s, step).jobs[id] != s.jobs[id];
    hide Inv, JobOk;
  }

  /** A stray step changes a terminal state, or leaves a task that can. */
  lemma StrayStepEndangers(callback: bool, s: System, step: Step)
    requires Inv(s) && Guarded(s) && Enabled(s, step) && Stray(callback, s, step)
    ensures var s' := Act(callback, s, step);
      || !Keeps(s, s')
      || exists next :: Enabled(s', next) && !Stray(callback, s', next) && !Keeps(s', Act(callback, s', next))
  {
    var s', id := Act(callback, s, step), step.id;
    StepKeepsInv(callback, s, step);
    assert JobOk(s, id) && GuardedJob(s, id);
    if Terminal(s.jobs[id]) {
      assert s'.jobs[id] != s.jobs[id];
    } else {
      assert s'.jobs[id] == Expired && Loose(s', id);
      hide Act, Inv, Stray, Guarded;
      LooseTaskOverwrites(callback, s', id);
    }
  }

  predicate NoStray(callback: bool, s: System, steps: seq<Step>)
    requires Legal(callback, s, steps)
    decreases |steps|
  {
    steps != [] ==> !Stray(callback, s, steps[0]) && NoStray(callback, Act(callback, s, steps[0]), steps[1..])
  }

  /** At every point of a run, the step taken, and any step that could be taken and is not itself stray, changes
      no terminal state. */
  ghost predicate FinalThroughout(callback: bool, s: System, steps: seq<Step>)
    requires Legal(callback, s, steps)
    decreases |steps|
  {
    && (forall step | Enabled(s, step) && !Stray(callback, s, step) :: Keeps(s, Act(callback, s, step)))
    && (steps != [] ==> Keeps(s, Act(callback, s, steps[0])) && FinalThroughout(callback, Act(callback, s, steps[0]), steps[1..]))
  }

  /** Exactly when terminal states are final, over all runs of any number of processes, with or without the
      callback: when no step of the run is stray. */
  lemma {:induction false} FinalIffNoStray(callback: bool, s: System, steps: seq<Step>)
    requires Inv(s) && Guarded(s) && Legal(callback, s, steps)
    ensures FinalThroughout(callback, s, steps) <==> NoStray(callback, s, steps)
    decreases |steps|
  {
    forall step | Enabled(s, step) && !Stray(callback, s, step) ensures Keeps(s, Act(callback, s, step)) {
      StepKeepsGuard(callback, s, step);
    }
    if steps != [] {
      StepKeepsInv(callback, s, steps[0]);
      hide Inv, Guarded, Enabled, Act, Keeps, Stray;
      if Stray(callback, s, steps[0]) {
        StrayStepEndangers(callback, s, steps[0]);
      } else {
        StepKeepsGuard(callback, s, steps[0]);
        FinalIffNoStray(callback, Act(callback, s, steps[0]), steps[1..]);
      }
    }
  }

  /** So a job that is terminal at some point of a run without stray steps keeps its state to the end. */
  lemma {:induction false} TerminalForever(callback: bool, s: System, steps: seq<Step>, id: nat)
    requires Inv(s) && Guarded(s) && Legal(callback, s, steps) && NoStray(callback, s, steps)
    ensures Inv(Play(callback, s, steps)) && Guarded(Play(callback, s, steps))
    ensures id in s.jobs && Terminal(s.jobs[id]) ==> id in Play(callback, s, steps).jobs && Play(callback, s, steps).jobs[id] == s.jobs[id]
    decreases |steps|
  {
    if steps != [] {
      StepKeepsInv(callback, s, steps[0]);
      StepKeepsGuard(callback, s, steps[0]);
      hide Inv, Guarded, Enabled, Terminal;
      TerminalForever(callback, Act(callback, s, steps[0]), steps[1..], id);
    }
  }

  /** What was read is what is there. */
  predicate Fresh(s: System, step: Step)
    requires Enabled(s, step)
  {
    match step
    case Record(id, read) => read == s.jobs[id]
    case DeliverCancel(id, sawLive) => sawLive <==> !Terminal(s.jobs[id])
    case EscapeLate(id, _, sawLive) => sawLive <==> !Terminal(s.jobs[id])
    case Reap(id, _) => !Terminal(s.jobs[id])
    case Recover(id, _) => Interrupted(s.jobs[id])
    case _ => true
  }

  /** A step of one process that alone uses its store, or of a task. */
  predicate OnlyBy(process: nat, step: Step) {
    match step
    case Submit(_, _, p) => p == process
    case RequestCancel(_, p) => p == process
    case Reap(_, p) => p == process
    case Recover(_, p) => p == process
    case _ => true
  }

  predicate AloneAndFresh(callback: bool, process: nat, s: System, steps: seq<Step>)
    requires Legal(callback, s, steps)
    decreases |steps|
  {
    steps != [] ==>
      && OnlyBy(process, steps[0]) && Fresh(s, steps[0])
      && AloneAndFresh(callback, process, Act(callback, s, steps[0]), steps[1..])
  }

  lemma OwnersStay(callback: bool, process: nat, s: System, step: Step)
    requires Enabled(s, step) && OnlyBy(process, step) && forall id | id in s.owner :: s.owner[id] == process
    ensures forall id | id in Act(callback, s, step).owner :: Act(callback, s, step).owner[id] == process
  {}

  /** A gateway whose store nobody else uses, and whose reaper has the callback, takes no stray step. */
  lemma {:induction false} OneGatewayNeverStrays(process: nat, s: System, steps: seq<Step>)
    requires Inv(s) && (forall id | id in s.owner :: s.owner[id] == process)
    requires Legal(true, s, steps) && AloneAndFresh(true, process, s, steps)
    ensures NoStray(true, s, steps)
    decreases |steps|
  {
    if steps != [] {
      assert !Stray(true, s, steps[0]);
      OwnersStay(true, process, s, steps[0]);
      StepKeepsInv(true, s, steps[0]);
      hide Inv, Act, Enabled, Stray, Fresh;
      OneGatewayNeverStrays(process, Act(true, s, steps[0]), steps[1..]);
    }
  }

  /** Two gateways on one store, every read fresh and every reaper with its callback: the second one's reaper or
      start-up sweep expires a job the first is executing, finds no task to cancel, and the first completes it. */
  lemma ForeignExpiryIsOverwritten(s: System, id: nat, process: nat, sweep: bool)
    requires Inv(s) && Has(s, id, Executing(false)) && s.jobs[id] == Running && s.owner[id] != process
    requires forall other | other in s.tasks :: !Owns(s, other, process)
    ensures var step := if sweep then Recover(id, process) else Reap(id, process);
      && Enabled(s, step) && Fresh(s, step) && Stray(true, s, step) && (
      var expired := Act(true, s, step);
      expired.jobs[id] == Expired && Enabled(expired, FinishResult(id)) && Act(true, expired, FinishResult(id)).jobs[id] == Completed)
  {}

  /** One gateway whose reaper has no callback: the same. */
  lemma ReaperWithoutCancelOverwrites(s: System, id: nat)
    requires Inv(s) && Has(s, id, Executing(false)) && s.jobs[id] == Running
    ensures var step := Reap(id, s.owner[id]);
      && Enabled(s, step) && Fresh(s, step) && Stray(false, s, step) && (
      var expired := Act(false, s, step);
      expired.jobs[id] == Expired && Enabled(expired, FinishResult(id)) && Act(false, expired, FinishResult(id)).jobs[id] == Completed)
  {}

  /** Both start from a reachable state. */
  lemma ExecutingIsReachable(id: nat, process: nat, callback: bool)
    ensures var steps := [Submit(id, false, process), Begin(id)];
      && Legal(callback, EMPTY, steps) && NoStray(callback, EMPTY, steps) && (
      var s := Play(callback, EMPTY, steps);
      Inv(s) && Has(s, id, Executing(false)) && s.jobs[id] == Running && s.owner == map[id := process] && s.tasks.Keys == {id})
  {
    var steps := [Submit(id, false, process), Begin(id)];
    var s1 := Act(callback, EMPTY, steps[0]);
    var s2 := Act(callback, s1, steps[1]);
    assert steps[1..] == [Begin(id)] && steps[1..][1..] == [];
    assert Legal(callback, s2, []) && Play(callback, s2, []) == s2;
    assert Legal(callback, s1, steps[1..]) && Play(callback, s1, steps[1..]) == s2;
    assert Legal(callback, EMPTY, steps);
    PlayKeepsInv(callback, EMPTY, steps);
  }

  // ---------------------------------------------------------------- budgets

  /** Budgets over every run, whatever other processes do: the run of a job settles its budget at most once, and
      exactly once if and only if it ended through the try block with no exception between the state update and
      the settlement; it is committed if and only if it ended by a result. */
  lemma BudgetSettledOnce(callback: bool, steps: seq<Step>, id: nat)
    requires Legal(callback, EMPTY, steps)
    ensures var s := Play(callback, EMPTY, steps);
      id in s.jobs && id in s.ends ==>
        && id in s.settled
        && |s.settled[id]| == (if ThroughTry(s.ends[id]) then 1 else 0)
        && (s.settled[id] == [Commit] <==> s.ends[id] == ByResult)
        && (s.settled[id] == [Commit] || s.settled[id] == [Release] || s.settled[id] == [])
  {
    PlayKeepsInv(callback, EMPTY, steps);
    var s := Play(callback, EMPTY, steps);
    if id in s.jobs {
      assert JobOk(s, id);
    }
  }

  /** Without stray steps a settled budget is committed if and only if the job ends completed. */
  lemma CommittedIffCompleted(callback: bool, steps: seq<Step>, id: nat)
    requires Legal(callback, EMPTY, steps) && NoStray(callback, EMPTY, steps)
    ensures var s := Play(callback, EMPTY, steps);
      id in s.jobs && id in s.ends ==>
        id in s.settled && (s.settled[id] == [Commit] <==> s.jobs[id] == Completed && ThroughTry(s.ends[id]))
  {
    TerminalForever(callback, EMPTY, steps, id);
    var s := Play(callback, EMPTY, steps);
    if id in s.jobs {
      assert JobOk(s, id) && GuardedJob(s, id);
    }
  }

  /** What a job ends as, without stray steps: COMPLETED by a result, FAILED by an error, CANCELLED by a cancellation
      unless it had expired, EXPIRED for a stored plan; and it is never Completed, Failed or Cancelled otherwise. */
  lemma EndsAs(callback: bool, steps: seq<Step>, id: nat)
    requires Legal(callback, EMPTY, steps) && NoStray(callback, EMPTY, steps)
    ensures var s := Play(callback, EMPTY, steps);
      id in s.jobs ==>
        && (id in s.ends ==> match s.ends[id]
            case ByResult => s.jobs[id] == Completed
            case ByTupleError => s.jobs[id] == Failed
            case ByCancellation => s.jobs[id] == Cancelled || s.jobs[id] == Expired
            case ByStoredPlan => s.jobs[id] == Expired
            case _ => true)
        && (s.jobs[id] == Completed ==> id in s.ends && (s.ends[id] == ByResult || s.ends[id] == ByLateEscape))
        && (s.jobs[id] == Failed ==> id in s.ends && (s.ends[id] == ByTupleError || s.ends[id] == ByLateEscape))
        && (s.jobs[id] == Cancelled ==> id in s.ends && (s.ends[id] == ByCancellation || s.ends[id] == ByLateEscape))
  {
    TerminalForever(callback, EMPTY, steps, id);
    var s := Play(callback, EMPTY, steps);
    if id in s.jobs {
      assert GuardedJob(s, id);
    }
  }

  /** An audit write that fails between the two leaves a completed job whose budget is never settled. */
  lemma CompletedButUnsettled(s: System, id: nat)
    requires Inv(s) && Has(s, id, Executing(false))
    ensures Enabled(s, EscapeLate(id, ByResult, true))
    ensures var s' := Act(true, s, EscapeLate(id, ByResult, true));
      Inv(s') && s'.jobs[id] == Completed && id in s'.settled && s'.settled[id] == [] && !Active(s', id)
  {
    assert JobOk(s, id);
    StepKeepsInv(true, s, EscapeLate(id, ByResult, true));
    hide Inv;
  }

  /** And while a run is under way nothing of its budget has been settled. */
  lemma UnsettledWhileActive(callback: bool, steps: seq<Step>, id: nat)
    requires Legal(callback, EMPTY, steps)
    ensures var s := Play(callback, EMPTY, steps);
      id in s.jobs ==> id in s.settled && (id !in s.ends <==> Active(s, id)) && (Active(s, id) ==> s.settled[id] == [])
  {
    PlayKeepsInv(callback, EMPTY, steps);
    var s := Play(callback, EMPTY, steps);
    if id in s.jobs {
      assert JobOk(s, id);
    }
  }

  /** A job cancelled before its task's first step keeps its state and its budget reservation. */
  lemma CancelledBeforeFirstStep(s: System, id: nat, stored: bool, process: nat)
    requires Inv(s) && id !in s.jobs
    ensures var steps := [Submit(id, stored, process), RequestCancel(id, process), Drop(id)];
      && Legal(true, s, steps)
      && id in Play(true, s, steps).jobs && Play(true, s, steps).jobs[id] == Queued
      && id in Play(true, s, steps).settled && Play(true, s, steps).settled[id] == []
  {
    var steps := [Submit(id, stored, process), RequestCancel(id, process), Drop(id)];
    assert steps[1..] == [RequestCancel(id, process), Drop(id)] && steps[1..][1..] == [Drop(id)] && steps[1..][1..][1..] == [];
    var submitted := Act(true, s, Submit(id, stored, process));
    var flagged := Act(true, submitted, RequestCancel(id, process));
    assert id !in s.tasks;
    assert submitted.tasks[id] == NotBegun(false) && Enabled(flagged, Drop(id));
    assert Legal(true, flagged, steps[1..][1..]) && Legal(true, submitted, steps[1..]);
    assert Play(true, s, steps) == Play(true, submitted, steps[1..]) == Play(true, flagged, steps[1..][1..]) == Act(true, flagged, Drop(id));
  }

  // ---------------------------------------------------------------- the dictionaries

  function Visited(snapshot: seq<nat>, due: set<nat>): set<nat> {
    if snapshot == [] then {}
    else
      var before, id := Visited(snapshot[..|snapshot| - 1], due), snapshot[|snapshot| - 1];
      if id in due then before + {id} else before
  }

  lemma {:induction false} VisitedAll(snapshot: seq<nat>, due: set<nat>)
    ensures forall id :: id in Visited(snapshot, due) <==> id in snapshot && id in due
  {
    if snapshot != [] {
      VisitedAll(snapshot[..|snapshot| - 1], due);
    }
  }

  /** Live jobs among `due` have expired and, given the callback, those of their tasks that are this process's own
      are asked to stop; nothing else has changed. */
  predicate Reaped(callback: bool, process: nat, before: System, after: System, due: set<nat>) {
    && after.jobs.Keys == before.jobs.Keys && after.tasks.Keys == before.tasks.Keys
    && after == before.(jobs := after.jobs, tasks := after.tasks)
    && (forall id | id in before.jobs :: after.jobs[id] == if id in due && !Terminal(before.jobs[id]) then Expired else before.jobs[id])
    && (forall id | id in before.tasks :: id in before.jobs && after.tasks[id] ==
          if id in due && !Terminal(before.jobs[id]) && callback && Owns(before, id, process) then Cancelling(before.tasks[id])
          else before.tasks[id])
  }

  lemma SameReaped(callback: bool, process: nat, before: System, after: System, done: set<nat>, due: set<nat>)
    requires Reaped(callback, process, before, after, done) && forall id | id in before.jobs :: id in done <==> id in due
    ensures Reaped(callback, process, before, after, due)
  {}

  lemma ReapedNext(callback: bool, process: nat, before: System, now: System, done: set<nat>, id: nat)
    requires Reaped(callback, process, before, now, done) && id in now.jobs && Enabled(now, Reap(id, process))
    ensures if Terminal(now.jobs[id]) then Reaped(callback, process, before, now, done + {id})
            else Reaped(callback, process, before, Act(callback, now, Reap(id, process)), done + {id})
  {
    var after := Act(callback, now, Reap(id, process));
    assert after == now.(jobs := now.jobs[id := Expired], tasks := if callback then Flagged(now, id, process) else now.tasks);
    assert forall other | other != id :: other in done + {id} <==> other in done;
    hide Act, Enabled, Terminal, Cancelling;
  }

  /** The live jobs among `due` have expired and no other job has changed. */
  predicate Swept(before: map<nat, JobState>, after: map<nat, JobState>, due: set<nat>) {
    && after.Keys == before.Keys
    && forall id | id in before :: after[id] == if id in due && !Terminal(before[id]) then Expired else before[id]
  }

  lemma SweptNext(before: map<nat, JobState>, now: map<nat, JobState>, done: set<nat>, id: nat)
    requires Swept(before, now, done) && id in now
    ensures if Interrupted(now[id]) then Swept(before, now[id := Expired], done + {id}) else Swept(before, now, done + {id})
  {
    assert forall other | other != id :: other in done + {id} <==> other in done;
  }

  lemma SameSwept(before: map<nat, JobState>, after: map<nat, JobState>, done: set<nat>, due: set<nat>)
    requires Swept(before, after, done) && forall id | id in before :: id in done <==> id in due
    ensures Swept(before, after, due)
  {}

  /** The step that ends a run whose process reads the job as it is. */
  function EndStep(s: System, id: nat, outcome: End): Step
    requires id in s.jobs
  {
    if outcome.ByResult? then FinishResult(id)
    else if outcome.ByTupleError? then FinishError(id)
    else DeliverCancel(id, !Terminal(s.jobs[id]))
  }

  /** The job store and the task tables, as one gateway process acts on them. */
  class JobBoard {
    const process: nat
    const callback: bool
    var jobs: map<nat, JobState>
    var storedPlan: map<nat, bool>
    var owner: map<nat, nat>
    var tasks: map<nat, Task>
    var settled: map<nat, seq<Settlement>>
    ghost var ends: map<nat, End>

    ghost function View(): System reads this {
      System(jobs, storedPlan, owner, tasks, settled, ends)
    }

    ghost predicate Valid() reads this { Inv(View()) }

    constructor (process: nat, callback: bool)
      ensures Valid() && View() == EMPTY && this.process == process && this.callback == callback
    {
      this.process, this.callback := process, callback;
      jobs, storedPlan, owner, tasks, settled, ends := map[], map[], map[], map[], map[], map[];
    }

    method SubmitAsync(id: nat, stored: bool)
      requires Valid() && id !in jobs
      modifies this
      ensures Enabled(old(View()), Submit(id, stored, process))
      ensures Valid() && View() == Act(callback, old(View()), Submit(id, stored, process))
    {
      StepKeepsInv(callback, View(), Submit(id, stored, process));
      jobs := jobs[id := Queued];
      storedPlan := storedPlan[id := stored];
      owner := owner[id := process];
      settled := settled[id := []];
      ends := ends - {id};
      tasks := tasks[id := NotBegun(false)];
    }

    method CancelJob(id: nat)
      modifies this`tasks
      ensures View() == Act(callback, old(View()), RequestCancel(id, process))
      ensures old(Valid()) ==> Valid()
    {
      if Valid() {
        StepKeepsInv(callback, View(), RequestCancel(id, process));
      }
      if id in tasks && id in owner && owner[id] == process {
        match tasks[id]
        case NotBegun(_) => tasks := tasks[id := NotBegun(true)];
        case Executing(_) => tasks := tasks[id := Executing(true)];
        case Ended =>
      }
    }

    /** The part of `_run_job` before `execute_sync`. */
    method BeginRun(id: nat)
      requires Valid() && id in jobs && id in tasks && tasks[id] == NotBegun(false)
      modifies this
      ensures Enabled(old(View()), Begin(id)) && Valid() && View() == Act(callback, old(View()), Begin(id))
    {
      assert JobOk(View(), id);
      StepKeepsInv(callback, View(), Begin(id));
      ghost var s, after := View(), Act(callback, View(), Begin(id));
      assert after == if storedPlan[id] then s.(jobs := jobs[id := Expired], tasks := tasks[id := Ended], ends := ends[id := ByStoredPlan])
                      else s.(jobs := jobs[id := Running], tasks := tasks[id := Executing(false)]);
      hide Inv, JobOk, Act, Enabled;
      jobs := jobs[id := Running];
      if storedPlan[id] {
        jobs := jobs[id := Expired];
        tasks := tasks[id := Ended];
        ends := ends[id := ByStoredPlan];
        assert jobs == s.jobs[id := Expired];
        assert View() == after;
        return;
      }
      tasks := tasks[id := Executing(false)];
      assert View() == after;
    }

    /** The part after it: result, `TupleError` or cancellation, then the `finally` block. */
    method EndRun(id: nat, outcome: End)
      requires Valid() && id in jobs && ThroughTry(outcome)
      requires id in tasks && tasks[id] == Executing(outcome.ByCancellation?)
      modifies this
      ensures var step := EndStep(old(View()), id, outcome);
        Enabled(old(View()), step) && Fresh(old(View()), step) && Valid() && View() == Act(callback, old(View()), step)
    {
      assert JobOk(View(), id);
      ghost var before := View();
      ghost var step := EndStep(before, id, outcome);
      StepKeepsInv(callback, before, step);
      hide Inv, JobOk;
      ghost var state := FinalState(jobs[id], outcome, !Terminal(jobs[id]));
      ghost var how := if outcome.ByResult? then Commit else Release;
      ghost var after := Act(callback, before, step);
      assert after == Settled(before, id, state, how, outcome);
      hide Act, Enabled, Terminal;
      if outcome.ByResult? {
        jobs := jobs[id := Completed];
        settled := settled[id := settled[id] + [Commit]];
      } else if outcome.ByCancellation? {
        if !Terminal(jobs[id]) {
          jobs := jobs[id := Cancelled];
        }
        settled := settled[id := settled[id] + [Release]];
      } else {
        jobs := jobs[id := Failed];
        settled := settled[id := settled[id] + [Release]];
      }
      assert jobs == before.jobs[id := state];
      ends := ends[id := outcome];
      tasks := tasks - {id};
      assert View() == after;
    }

    /** Writing the record and calling back. */
    method Expire(id: nat)
      requires Valid() && id in jobs
      modifies this`jobs, this`tasks
      ensures Enabled(old(View()), Reap(id, process)) && Valid() && View() == Act(callback, old(View()), Reap(id, process))
    {
      assert JobOk(View(), id);
      StepKeepsInv(callback, View(), Reap(id, process));
      ghost var s, after := View(), Act(callback, View(), Reap(id, process));
      assert after == s.(jobs := jobs[id := Expired], tasks := if callback then Flagged(s, id, process) else tasks);
      hide Inv, JobOk, Flagged, Enabled;
      jobs := jobs[id := Expired];
      if callback {
        CancelJob(id);
        assert Flagged(s.(jobs := jobs), id, process) == Flagged(s, id, process) by { FlagsIgnoreJobs(s, jobs, id, process); }
      }
      assert View() == after;
    }

    /** One reaper pass over a snapshot of all jobs: overdue live jobs expire and, if they are this process's, are
        cancelled. */
    method ReapOverdue(snapshot: seq<nat>, overdue: set<nat>)
      requires Valid() && (forall id | id in snapshot :: id in jobs) && (forall id | id in jobs :: id in snapshot)
      modifies this`jobs, this`tasks
      ensures Valid() && Reaped(callback, process, old(View()), View(), overdue)
    {
      ghost var before := View();
      assert Reaped(callback, process, before, before, {});
      VisitedAll(snapshot, overdue);
      hide Inv, Reaped;
      for k := 0 to |snapshot|
        invariant Valid() && jobs.Keys == before.jobs.Keys && Reaped(callback, process, before, View(), Visited(snapshot[..k], overdue))
      {
        assert snapshot[..k + 1][..k] == snapshot[..k];
        if snapshot[k] in overdue {
          ReapOne(snapshot[k], before, Visited(snapshot[..k], overdue));
        }
      }
      assert snapshot[..|snapshot|] == snapshot;
      SameReaped(callback, process, before, View(), Visited(snapshot, overdue), overdue);
    }

    method ReapOne(id: nat, ghost before: System, ghost done: set<nat>)
      requires Valid() && id in jobs && Reaped(callback, process, before, View(), done)
      modifies this`jobs, this`tasks
      ensures Valid() && jobs.Keys == old(jobs).Keys && Reaped(callback, process, before, View(), done + {id})
    {
      assert JobOk(View(), id);
      ReapedNext(callback, process, before, View(), done, id);
      hide Inv, Reaped;
      if !Terminal(jobs[id]) {
        Expire(id);
      }
    }

    /** The start-up sweep of a process that has no task yet, over a store that other processes may be using:
        every live job expires, whoever is running it. */
    method RecoverInterrupted(snapshot: seq<nat>)
      requires Valid() && forall id | id in tasks :: !Owns(View(), id, process)
      requires (forall id | id in snapshot :: id in jobs) && (forall id | id in jobs :: id in snapshot)
      modifies this`jobs
      ensures Valid() && Swept(old(jobs), jobs, old(jobs).Keys)
    {
      ghost var before := jobs;
      assert Swept(before, jobs, {});
      VisitedAll(snapshot, before.Keys);
      hide Inv, Swept;
      for k := 0 to |snapshot|
        invariant Valid() && jobs.Keys == before.Keys && Swept(before, jobs, Visited(snapshot[..k], before.Keys))
      {
        assert snapshot[..k + 1][..k] == snapshot[..k];
        RecoverOne(snapshot[k], before, Visited(snapshot[..k], before.Keys));
      }
      assert snapshot[..|snapshot|] == snapshot;
      SameSwept(before, jobs, Visited(snapshot, before.Keys), before.Keys);
    }

    method RecoverOne(id: nat, ghost before: map<nat, JobState>, ghost done: set<nat>)
      requires Valid() && id in jobs && Swept(before, jobs, done) && forall other | other in tasks :: !Owns(View(), other, process)
      modifies this`jobs
      ensures Valid() && jobs.Keys == old(jobs).Keys && Swept(before, jobs, done + {id})
    {
      SweptNext(before, jobs, done, id);
      hide Swept;
      if Interrupted(jobs[id]) {
        ExpireInterrupted(id);
      }
    }

    method ExpireInterrupted(id: nat)
      requires Valid() && id in jobs && forall other | other in tasks :: !Owns(View(), other, process)
      modifies this`jobs
      ensures Enabled(old(View()), Recover(id, process)) && Valid() && View() == Act(callback, old(View()), Recover(id, process))
      ensures jobs == old(jobs)[id := Expired]
    {
      assert JobOk(View(), id);
      StepKeepsInv(callback, View(), Recover(id, process));
      hide Inv, JobOk;
      jobs := jobs[id := Expired];
    }
  }
}
