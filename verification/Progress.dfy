/** What dispatches can do, beside what they never do: every script is played by some run of the step machine, no
    dispatch waits for another, and the effect a step has on the controller is the one its history records. */
module Progress {
  import opened Wrappers
  import opened ProviderErrors
  import opened Admission
  import F = Fallback
  import M = DispatchMachine
  import W = World

  // ---------------------------------------------------------------- every script has a run

  /** What the script answers at a program point. */
  function ScriptedInput(chain: seq<F.Entry>, l: M.Local): M.Input {
    match l.pc
    case AtEntry => if l.i < |chain| then M.Look(chain[l.i].available, chain[l.i].adapter) else M.Look(false, false)
    case AtAttempt(_) => M.Check
    case Releasing(_, _) => M.ReleaseDone
    case Done(_) => M.Cancel
    case Lost(_, _) => M.Cancel
    case _ =>
      if l.i >= |chain| then M.Cancel
      else match (l.pc, chain[l.i].attempt(l.pc.a))
        case (Asking(_), Denied) => M.Answer(false)
        case (Asking(_), AskFailed(timedOut)) => M.AskError(timedOut)
        case (Asking(_), _) => M.Answer(true)
        case (Holding(_), NotStarted(problem)) => M.Begin(Some(problem))
        case (Holding(_), _) => M.Begin(None)
        case (Running(_), Ran(outcome, _)) => M.End(outcome)
        case (Cleaning(_, _), Ran(_, cleans)) => if cleans then M.CleanDone else M.CleanRaised
        case _ => M.Cancel
  }

  /** How far a program point is from the end of its attempt. */
  function Stage(pc: M.Pc): nat {
    match pc
    case AtEntry => 7
    case AtAttempt(_) => 6
    case Asking(_) => 5
    case Holding(_) => 4
    case Running(_) => 3
    case Cleaning(_, _) => 2
    case Releasing(_, _) => 1
    case _ => 0
  }

  function EntriesLeft(families: seq<string>, l: M.Local): nat {
    if l.i <= |families| then |families| - l.i else 0
  }

  function AttemptsLeft(rules: F.Rules, l: M.Local): nat {
    match l.pc
    case AtEntry => rules.Attempts() + 1
    case Done(_) => 0
    case _ => if l.pc.a <= rules.Attempts() then rules.Attempts() - l.pc.a else 0
  }

  /** A dispatch never stands still, and never goes back. */
  lemma ScriptedStep(rules: F.Rules, families: seq<string>, chain: seq<F.Entry>, l: M.Local)
    requires M.Scripted(families, chain) && M.Consistent(rules, families, chain, l) && !M.Ended(l)
    ensures var input := ScriptedInput(chain, l);
      && input != M.Cancel && M.Agrees(chain, l, input) && M.Advance(rules, families, l, input).Some? && (
      var l' := M.Advance(rules, families, l, input).value;
      && EntriesLeft(families, l') <= EntriesLeft(families, l)
      && (EntriesLeft(families, l') == EntriesLeft(families, l) ==>
            && AttemptsLeft(rules, l') <= AttemptsLeft(rules, l)
            && (AttemptsLeft(rules, l') == AttemptsLeft(rules, l) ==> Stage(l'.pc) < Stage(l.pc))))
  {
    hide F.Judge, F.Exhausted, F.FamilyExhausted, F.Began;
  }

  lemma Follow(rules: F.Rules, families: seq<string>, chain: seq<F.Entry>, l: M.Local) returns (inputs: seq<M.Input>)
    requires M.Scripted(families, chain) && M.Consistent(rules, families, chain, l)
    ensures M.Cancel !in inputs && M.AllAgree(rules, families, chain, l, inputs)
    ensures M.Feed(rules, families, l, inputs).Some? && M.Ended(M.Feed(rules, families, l, inputs).value)
    decreases EntriesLeft(families, l), AttemptsLeft(rules, l), Stage(l.pc)
  {
    if M.Ended(l) {
      inputs := [];
    } else {
      var input := ScriptedInput(chain, l);
      ScriptedStep(rules, families, chain, l);
      M.StepKeepsRest(rules, families, chain, l, input);
      hide M.Advance, M.Agrees, M.Consistent, ScriptedInput;
      var rest := Follow(rules, families, chain, M.Advance(rules, families, l, input).value);
      inputs := [input] + rest;
      assert inputs[1..] == rest;
    }
  }

  /** The machine plays every script: for every chain and every answer to every question there is a run without
      cancellation that ends, gets exactly those answers, and so has the specification's verdict and history. */
  lemma EveryScriptIsPlayed(rules: F.Rules, families: seq<string>, chain: seq<F.Entry>)
    requires M.Scripted(families, chain)
    ensures exists inputs ::
      && M.Cancel !in inputs && M.AllAgree(rules, families, chain, M.START, inputs)
      && M.Feed(rules, families, M.START, inputs).Some? && (
      var l := M.Feed(rules, families, M.START, inputs).value;
      M.Ended(l) && (l.pc.verdict, l.t) == F.Dispatch(rules, chain))
  {
    var inputs := Follow(rules, families, chain, M.START);
    M.MachineRefinesSpecification(rules, families, chain, inputs);
    hide M.Ended;
  }

  // ---------------------------------------------------------------- cancellation

  function Closing(l: M.Local, events: seq<F.Event>): M.Local {
    l.(pc := M.Done(F.Interrupted), t := l.t.(trace := l.t.trace + events))
  }

  lemma FeedOne(rules: F.Rules, families: seq<string>, l: M.Local, input: M.Input, rest: seq<M.Input>)
    ensures var next := M.Advance(rules, families, l, input);
      M.Feed(rules, families, l, [input] + rest) == if next.Some? then M.Feed(rules, families, next.value, rest) else None
  {
    assert ([input] + rest)[1..] == rest;
  }

  /** A cancellation reaches a dispatch exactly where it awaits something, and what is open is closed in the usual order:
      a started handle is cleaned and the lease released. Only a cancelled cleanup leaves both as they are. */
  lemma CancellationCloses(rules: F.Rules, families: seq<string>, l: M.Local)
    ensures M.Advance(rules, families, l, M.Cancel).Some? <==> l.pc.Asking? || l.pc.Holding? || l.pc.Running? || l.pc.Cleaning?
    ensures l.pc.Asking? ==> M.Feed(rules, families, l, [M.Cancel]) == Some(Closing(l, []))
    ensures l.pc.Holding? ==> M.Feed(rules, families, l, [M.Cancel, M.ReleaseDone]) == Some(Closing(l, [F.Released(l.i, l.pc.a)]))
    ensures l.pc.Running? ==>
      M.Feed(rules, families, l, [M.Cancel, M.CleanDone, M.ReleaseDone]) == Some(Closing(l, [F.Cleaned(l.i, l.pc.a), F.Released(l.i, l.pc.a)]))
    ensures l.pc.Cleaning? ==>
      && M.Advance(rules, families, l, M.Cancel) == Some(M.Local(l.i, M.Lost(l.pc.a, F.Interrupted), l.pc.next.tally))
      && M.Advance(rules, families, l, M.CleanRaised) == Some(M.Local(l.i, M.Lost(l.pc.a, F.Escaped), l.pc.next.tally))
  {
    if l.pc.Asking? {
      assert l.t.trace + [] == l.t.trace;
    } else if l.pc.Holding? {
      var l1 := M.Advance(rules, families, l, M.Cancel).value;
      assert [M.Cancel, M.ReleaseDone] == [M.Cancel] + [M.ReleaseDone];
      FeedOne(rules, families, l, M.Cancel, [M.ReleaseDone]);
      FeedOne(rules, families, l1, M.ReleaseDone, []);
    } else if l.pc.Running? {
      var l1 := M.Advance(rules, families, l, M.Cancel).value;
      var l2 := M.Advance(rules, families, l1, M.CleanDone).value;
      assert [M.Cancel, M.CleanDone, M.ReleaseDone] == [M.Cancel] + [M.CleanDone, M.ReleaseDone];
      assert [M.CleanDone, M.ReleaseDone] == [M.CleanDone] + [M.ReleaseDone];
      FeedOne(rules, families, l, M.Cancel, [M.CleanDone, M.ReleaseDone]);
      FeedOne(rules, families, l1, M.CleanDone, [M.ReleaseDone]);
      FeedOne(rules, families, l2, M.ReleaseDone, []);
      assert l.t.trace + [F.Cleaned(l.i, l.pc.a)] + [F.Released(l.i, l.pc.a)] == l.t.trace + [F.Cleaned(l.i, l.pc.a), F.Released(l.i, l.pc.a)];
    }
  }

  // ---------------------------------------------------------------- in the world

  /** The history as it will be recorded when the `finally` block is left. */
  function History(l: M.Local): seq<F.Event> {
    if l.pc.Cleaning? || l.pc.Releasing? then l.pc.next.tally.trace else l.t.trace
  }

  /** What an input at a program point adds to the history. */
  function Added(l: M.Local, input: M.Input): seq<F.Event> {
    match (l.pc, input)
    case (Asking(a), Answer(allowed)) => if allowed then [F.Leased(l.i, a)] else []
    case (Asking(_), AskError(timedOut)) => F.Suppression(F.AskProblem(timedOut), l.i)
    case (Holding(a), Begin(problem)) => if problem.Some? then F.Suppression(problem.value, l.i) else [F.Started(l.i, a)]
    case (Running(_), End(outcome)) => if outcome.Ok? then [] else F.Suppression(outcome.error, l.i)
    case (Cleaning(a, _), CleanDone) => [F.Cleaned(l.i, a)]
    case (Releasing(a, _), ReleaseDone) => [F.Released(l.i, a)]
    case _ => []
  }

  lemma JudgeHistory(rules: F.Rules, t: F.Tally, i: nat, a: nat, problem: Problem)
    ensures F.Judge(rules, t, i, a, problem).tally.trace == t.trace + F.Suppression(problem, i)
  {
    hide F.Suppression;
  }

  lemma HistoryGrows(rules: F.Rules, families: seq<string>, l: M.Local, input: M.Input)
    requires M.Advance(rules, families, l, input).Some?
    ensures History(M.Advance(rules, families, l, input).value) == History(l) + Added(l, input)
  {
    match (l.pc, input)
    case (Asking(a), AskError(timedOut)) => JudgeHistory(rules, l.t, l.i, a, F.AskProblem(timedOut));
    case (Holding(a), Begin(Some(problem))) => JudgeHistory(rules, l.t, l.i, a, problem);
    case (Running(a), End(Err(problem))) => JudgeHistory(rules, l.t, l.i, a, problem);
    case _ =>
    hide F.Judge, F.Suppression, F.Exhausted, F.FamilyExhausted;
  }

  /** A step does to the controller what it adds to the history, and no more than that: it takes the lease, blacks out
      the tuple or its family, or gives the lease back. A step that adds none of these asks in vain, or leaves the
      controller alone. */
  lemma EffectIsHistory(cfg: Config, job: W.Job, input: W.Input)
    requires job.SyncJob? && W.InChain(job) && W.Step(cfg, job, input).Some?
    ensures var (job', effect) := W.Step(cfg, job, input).value;
      && job'.SyncJob? && job'.plan == job.plan && |History(job.local)| <= |History(job'.local)| <= |History(job.local)| + 1
      && History(job'.local)[..|History(job.local)|] == History(job.local)
      && (|History(job'.local)| == |History(job.local)| ==> effect.Quiet? || (effect.Take? && !effect.allowed))
      && (|History(job'.local)| > |History(job.local)| ==>
            match History(job'.local)[|History(job.local)|]
            case Leased(i, _) => i < |job.plan.targets| && effect == W.Take(job.plan.targets[i], true)
            case Suppressed(i, whole) => i < |job.plan.targets| && effect == W.Black(job.plan.targets[i], whole)
            case Released(_, _) => effect == W.Drop
            case _ => effect == W.Quiet)
  {
    HistoryGrows(job.plan.rules, W.Families(cfg, job.plan.targets), job.local, input.input);
    hide M.Advance, History;
  }

  /** No dispatch waits for another: whatever the rest of the world has done, one that has not ended can take a step,
      and if it asks for admission there is an answer it can be given. */
  lemma NobodyIsBlocked(cfg: Config, w: W.World, id: nat, now: real)
    requires id in w.jobs && w.jobs[id].SyncJob? && !M.Ended(w.jobs[id].local)
    requires M.WellPlaced(w.jobs[id].plan.rules, W.Families(cfg, w.jobs[id].plan.targets), w.jobs[id].local)
    ensures exists input :: input != M.Cancel && W.Enabled(cfg, w, W.Go(id, W.Sync(input), now))
  {
    var job := w.jobs[id];
    var l := job.local;
    var input := match l.pc
      case AtEntry => M.Look(false, false)
      case AtAttempt(_) => M.Check
      case Asking(_) => M.Answer(Decide(cfg, w.ledger, job.plan.targets[l.i], job.plan.scope, now).Allowed?)
      case Holding(_) => M.Begin(None)
      case Running(_) => M.End(Err(Unexpected))
      case Cleaning(_, _) => M.CleanDone
      case _ => M.ReleaseDone;
    hide F.Judge, F.Exhausted, F.FamilyExhausted, F.Began, Decide;
    assert W.Enabled(cfg, w, W.Go(id, W.Sync(input), now));
  }
}
