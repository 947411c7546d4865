/** One synchronous dispatch as a step machine (`Dispatcher.execute_sync` in gpucall/dispatcher.py,
    cut at its awaits), so that many dispatches can be interleaved. The machine runs the same
    dispatch as the recursive specification, whatever happens between its steps. */
module DispatchMachine {
  import opened Wrappers
  import opened ProviderErrors
  import opened Fallback

  datatype Pc =
    | AtEntry                              // head of the outer loop
    | AtAttempt(a: nat)                    // head of the inner loop: the two caps
    | Asking(a: nat)                       // awaiting admission
    | Holding(a: nat)                      // lease held, gate and start under way
    | Running(a: nat)                      // handle held, waiting for the output
    | Cleaning(a: nat, next: Next)         // in `finally`, handle still held
    | Releasing(a: nat, next: Next)        // in `finally`, lease still held
    | Done(verdict: Verdict)
    | Lost(a: nat, verdict: Verdict)       // `_cleanup_remote` was cancelled or raised: the release is skipped

  datatype Local = Local(i: nat, pc: Pc, t: Tally)

  const START := Local(0, AtEntry, FRESH)

  datatype Input =
    | Look(available: bool, adapter: bool)
    | Check
    | Answer(allowed: bool)
    | AskError(timedOut: bool)
    | Begin(problem: Option<Problem>)
    | End(outcome: Result<Output, Problem>)
    | CleanDone
    | CleanRaised
    | ReleaseDone
    | Cancel

  function LeaveAttempt(rules: Rules, l: Local, a: nat, next: Next): Local {
    match next
    case Stop(verdict, t) => Local(l.i, Done(verdict), t)
    case Again(t) => if a >= rules.Attempts() then Local(l.i + 1, AtEntry, t) else Local(l.i, AtAttempt(a + 1), t)
    case Move(t) => Local(l.i + 1, AtEntry, t)
  }

  function Logged(next: Next, event: Event): Next {
    var t := next.tally.(trace := next.tally.trace + [event]);
    match next
    case Stop(verdict, _) => Stop(verdict, t)
    case Again(_) => Again(t)
    case Move(_) => Move(t)
  }

  /** One step, or `None` when the input does not fit the program point. */
  function Advance(rules: Rules, families: seq<string>, l: Local, input: Input): Option<Local> {
    match (l.pc, input)
    case (AtEntry, Look(available, adapter)) =>
      if l.i >= |families| then Some(l.(pc := Done(Raised(if l.t.last.Some? then l.t.last.value else NO_ADAPTER_ERROR))))
      else if !available || !adapter then Some(l.(i := l.i + 1))
      else Some(l.(pc := AtAttempt(1)))
    case (AtAttempt(a), Check) =>
      if l.i >= |families| then None
      else if Exhausted(rules, l.t) then Some(Local(l.i + 1, AtEntry, l.t))
      else if FamilyExhausted(rules, l.t, families[l.i]) then Some(Local(l.i + 1, AtEntry, l.t.(last := Some(CAPACITY_ERROR))))
      else Some(l.(pc := Asking(a)))
    case (Asking(a), Answer(allowed)) =>
      if l.i >= |families| then None
      else if !allowed then Some(Local(l.i + 1, AtEntry, l.t.(last := Some(CAPACITY_ERROR))))
      else Some(Local(l.i, Holding(a), Began(l.t, l.i, a, families[l.i])))
    case (Asking(a), AskError(timedOut)) =>
      if l.i >= |families| then None
      else Some(Local(l.i + 1, AtEntry, Judge(rules, l.t, l.i, a, AskProblem(timedOut)).tally))
    case (Asking(a), Cancel) => Some(l.(pc := Done(Interrupted)))
    case (Holding(a), Begin(problem)) =>
      if problem.Some? then Some(l.(pc := Releasing(a, Judge(rules, l.t, l.i, a, problem.value))))
      else Some(Local(l.i, Running(a), l.t.(trace := l.t.trace + [Started(l.i, a)])))
    case (Holding(a), Cancel) => Some(l.(pc := Releasing(a, Stop(Interrupted, l.t))))
    case (Running(a), End(outcome)) =>
      Some(l.(pc := Cleaning(a, if outcome.Ok? then Stop(Returned(outcome.value), l.t) else Judge(rules, l.t, l.i, a, outcome.error))))
    case (Running(a), Cancel) => Some(l.(pc := Cleaning(a, Stop(Interrupted, l.t))))
    case (Cleaning(a, next), CleanDone) => Some(l.(pc := Releasing(a, Logged(next, Cleaned(l.i, a)))))
    case (Cleaning(a, next), CleanRaised) => Some(Local(l.i, Lost(a, Escaped), next.tally))
    case (Cleaning(a, next), Cancel) => Some(Local(l.i, Lost(a, Interrupted), next.tally))
    case (Releasing(a, next), ReleaseDone) => Some(LeaveAttempt(rules, l, a, Logged(next, Released(l.i, a))))
    case _ => None
  }

  /** Program points are well formed: attempts count from one, and a lease belongs to a chain entry. */
  predicate WellPlaced(rules: Rules, families: seq<string>, l: Local) {
    match l.pc
    case AtEntry => l.i <= |families|
    case Done(_) => true
    case _ => l.i < |families| && 1 <= l.pc.a <= rules.Attempts()
  }

  lemma AdvanceWellPlaced(rules: Rules, families: seq<string>, l: Local, input: Input)
    requires WellPlaced(rules, families, l) && Advance(rules, families, l, input).Some?
    ensures WellPlaced(rules, families, Advance(rules, families, l, input).value)
  {}

  // ---------------------------------------------------------------- agreement with the specification

  ghost predicate Scripted(families: seq<string>, chain: seq<Entry>) {
    |chain| == |families| && forall i | 0 <= i < |chain| :: chain[i].family == families[i]
  }

  /** The input is what the script says the world answers at this point; cancellation is not scripted. */
  ghost predicate Agrees(chain: seq<Entry>, l: Local, input: Input) {
    match (l.pc, input)
    case (AtEntry, Look(available, adapter)) => l.i < |chain| ==> available == chain[l.i].available && adapter == chain[l.i].adapter
    case (Asking(a), Answer(allowed)) => l.i < |chain| && if allowed then chain[l.i].attempt(a).Granted() else chain[l.i].attempt(a).Denied?
    case (Asking(a), AskError(timedOut)) => l.i < |chain| && chain[l.i].attempt(a) == AskFailed(timedOut)
    case (Holding(a), Begin(problem)) =>
      l.i < |chain| && (if problem.Some? then chain[l.i].attempt(a) == NotStarted(problem.value) else chain[l.i].attempt(a).Ran?)
    case (Running(a), End(outcome)) => l.i < |chain| && chain[l.i].attempt(a).Ran? && chain[l.i].attempt(a).outcome == outcome
    case (Cleaning(a, _), CleanDone) => l.i < |chain| && chain[l.i].attempt(a).Ran? && chain[l.i].attempt(a).cleans
    case (Cleaning(a, _), CleanRaised) => l.i < |chain| && chain[l.i].attempt(a).Ran? && !chain[l.i].attempt(a).cleans
    case (_, Cancel) => false
    case _ => true
  }

  ghost function AfterAttempt(rules: Rules, chain: seq<Entry>, i: nat, a: nat, next: Next): (Verdict, Tally)
    requires i < |chain| && 1 <= a <= rules.Attempts()
  {
    match next
    case Stop(v, t) => (v, t)
    case Again(t) => if a == rules.Attempts() then Entries(rules, chain, i + 1, t) else Attempts(rules, chain, i, a + 1, t)
    case Move(t) => Entries(rules, chain, i + 1, t)
  }

  /** The cleanup, and what follows it. */
  ghost function AfterRun(rules: Rules, chain: seq<Entry>, i: nat, a: nat, next: Next): (Verdict, Tally)
    requires i < |chain| && 1 <= a <= rules.Attempts() && chain[i].attempt(a).Ran?
  {
    if chain[i].attempt(a).cleans then AfterAttempt(rules, chain, i, a, Finish(next, i, a, true)) else (Escaped, next.tally)
  }

  /** What the specification still has to do from this program point. */
  ghost function Rest(rules: Rules, chain: seq<Entry>, l: Local): (Verdict, Tally) {
    if l.pc.Done? then (l.pc.verdict, l.t)
    else if l.pc.AtEntry? then if l.i <= |chain| then Entries(rules, chain, l.i, l.t) else (Interrupted, l.t)
    else if l.i >= |chain| || !(1 <= l.pc.a <= rules.Attempts()) then (Interrupted, l.t)
    else match l.pc
    case AtAttempt(a) => Attempts(rules, chain, l.i, a, l.t)
    case Asking(a) => Attempts(rules, chain, l.i, a, l.t)
    case Holding(a) =>
      if !chain[l.i].attempt(a).Granted() then (Interrupted, l.t)
      else AfterAttempt(rules, chain, l.i, a, LeasedNext(rules, l.t, l.i, a, chain[l.i].attempt(a)))
    case Running(a) =>
      if !chain[l.i].attempt(a).Ran? then (Interrupted, l.t)
      else
        var outcome := chain[l.i].attempt(a).outcome;
        var next := if outcome.Ok? then Stop(Returned(outcome.value), l.t) else Judge(rules, l.t, l.i, a, outcome.error);
        AfterRun(rules, chain, l.i, a, next)
    case Cleaning(a, next) => if chain[l.i].attempt(a).Ran? then AfterRun(rules, chain, l.i, a, next) else (Interrupted, l.t)
    case Releasing(a, next) => AfterAttempt(rules, chain, l.i, a, Finish(next, l.i, a, false))
    case Lost(_, verdict) => (verdict, l.t)
  }

  /** The caps were open when admission was asked, and admission granted what the script grants. */
  ghost predicate Consistent(rules: Rules, families: seq<string>, chain: seq<Entry>, l: Local) {
    && WellPlaced(rules, families, l)
    && (l.pc.Asking? ==> !Exhausted(rules, l.t) && !FamilyExhausted(rules, l.t, families[l.i]))
    && (l.pc.Holding? ==> l.i < |chain| && chain[l.i].attempt(l.pc.a).Granted())
    && (l.pc.Running? || l.pc.Cleaning? ==> l.i < |chain| && chain[l.i].attempt(l.pc.a).Ran?)
  }

  lemma FinishInTwoSteps(next: Next, i: nat, a: nat)
    ensures Finish(Logged(next, Cleaned(i, a)), i, a, false) == Finish(next, i, a, true)
    ensures Finish(next, i, a, false) == Logged(next, Released(i, a))
  {
    var trace := next.tally.trace;
    assert trace + [] == trace;
    assert trace + [Cleaned(i, a)] + [] == trace + [Cleaned(i, a)];
  }

  lemma StepKeepsRest(rules: Rules, families: seq<string>, chain: seq<Entry>, l: Local, input: Input)
    requires Scripted(families, chain) && Consistent(rules, families, chain, l)
    requires Advance(rules, families, l, input).Some? && Agrees(chain, l, input)
    ensures var l' := Advance(rules, families, l, input).value;
      Consistent(rules, families, chain, l') && Rest(rules, chain, l') == Rest(rules, chain, l)
  {
    AdvanceWellPlaced(rules, families, l, input);
    match l.pc
    case AtEntry =>
    case AtAttempt(a) =>
    case Asking(a) =>
    case Holding(a) =>
    case Running(a) =>
    case Cleaning(a, next) =>
      FinishInTwoSteps(next, l.i, a);
      hide Entries, Attempts, Finish;
    case Releasing(a, next) =>
      FinishInTwoSteps(next, l.i, a);
      hide Entries, Attempts, Finish;
  }

  /** Feed a sequence of inputs. */
  function Feed(rules: Rules, families: seq<string>, l: Local, inputs: seq<Input>): Option<Local>
    decreases |inputs|
  {
    if inputs == [] then Some(l)
    else match Advance(rules, families, l, inputs[0])
      case None => None
      case Some(l') => Feed(rules, families, l', inputs[1..])
  }

  ghost predicate AllAgree(rules: Rules, families: seq<string>, chain: seq<Entry>, l: Local, inputs: seq<Input>)
    decreases |inputs|
  {
    inputs != [] ==>
      && Agrees(chain, l, inputs[0])
      && var next := Advance(rules, families, l, inputs[0]);
         next.Some? ==> AllAgree(rules, families, chain, next.value, inputs[1..])
  }

  lemma {:induction false} FeedKeepsRest(rules: Rules, families: seq<string>, chain: seq<Entry>, l: Local, inputs: seq<Input>)
    requires Scripted(families, chain) && Consistent(rules, families, chain, l)
    requires AllAgree(rules, families, chain, l, inputs) && Feed(rules, families, l, inputs).Some?
    ensures var l' := Feed(rules, families, l, inputs).value;
      Consistent(rules, families, chain, l') && Rest(rules, chain, l') == Rest(rules, chain, l)
    decreases |inputs|
  {
    if inputs != [] {
      StepKeepsRest(rules, families, chain, l, inputs[0]);
      hide Rest, Consistent, Advance, Agrees;
      FeedKeepsRest(rules, families, chain, Advance(rules, families, l, inputs[0]).value, inputs[1..]);
    }
  }

  predicate Ended(l: Local) { l.pc.Done? || l.pc.Lost? }

  /** However its steps are spread out in time, an uncancelled dispatch that ends has the verdict, the counters and
      the event history of the recursive specification for the answers it was given. */
  lemma MachineRefinesSpecification(rules: Rules, families: seq<string>, chain: seq<Entry>, inputs: seq<Input>)
    requires Scripted(families, chain) && AllAgree(rules, families, chain, START, inputs)
    requires Feed(rules, families, START, inputs).Some? && Ended(Feed(rules, families, START, inputs).value)
    ensures var l := Feed(rules, families, START, inputs).value; (l.pc.verdict, l.t) == Dispatch(rules, chain)
  {
    FeedKeepsRest(rules, families, chain, START, inputs);
  }

  // ---------------------------------------------------------------- every run has a script

  const NO_ANSWER := Ran(Err(Unexpected), true)

  function Unasked(families: seq<string>): seq<Entry> {
    seq(|families|, i requires 0 <= i < |families| => Entry(false, false, families[i], (_) => NO_ANSWER))
  }

  function WithLook(chain: seq<Entry>, i: nat, available: bool, adapter: bool): seq<Entry> {
    if i < |chain| then chain[i := chain[i].(available := available, adapter := adapter)] else chain
  }

  function WithAttempt(chain: seq<Entry>, i: nat, a: nat, met: Attempt): seq<Entry> {
    if i < |chain| then
      var before := chain[i].attempt;
      chain[i := chain[i].(attempt := (b: nat) => if b == a then met else before(b))]
    else chain
  }

  function CleansAt(chain: seq<Entry>, i: nat, a: nat): bool {
    i < |chain| && chain[i].attempt(a).Ran? && chain[i].attempt(a).cleans
  }

  /** The script a run's own answers amount to, read off from a program point on. */
  function ScriptOf(rules: Rules, families: seq<string>, l: Local, inputs: seq<Input>): seq<Entry>
    decreases |inputs|
  {
    if inputs == [] then Unasked(families)
    else match Advance(rules, families, l, inputs[0])
      case None => Unasked(families)
      case Some(l') =>
        var later := ScriptOf(rules, families, l', inputs[1..]);
        match (l.pc, inputs[0])
        case (AtEntry, Look(available, adapter)) => WithLook(later, l.i, available, adapter)
        case (Asking(a), Answer(allowed)) => if allowed then later else WithAttempt(later, l.i, a, Denied)
        case (Asking(a), AskError(timedOut)) => WithAttempt(later, l.i, a, AskFailed(timedOut))
        case (Holding(a), Begin(problem)) => if problem.Some? then WithAttempt(later, l.i, a, NotStarted(problem.value)) else later
        case (Running(a), End(outcome)) => WithAttempt(later, l.i, a, Ran(outcome, CleansAt(later, l.i, a)))
        case (Cleaning(a, _), CleanDone) => WithAttempt(later, l.i, a, Ran(Err(Unexpected), true))
        case (Cleaning(a, _), CleanRaised) => WithAttempt(later, l.i, a, Ran(Err(Unexpected), false))
        case _ => later
  }

  /** The questions a program point may still ask: whether entry j is usable, ... */
  predicate LooksAt(l: Local, j: nat) {
    if l.pc.AtEntry? then j >= l.i else j > l.i
  }

  /** ... and how attempt b on it went. */
  predicate AsksFor(l: Local, j: nat, b: nat) {
    match l.pc
    case AtEntry => j >= l.i
    case Done(_) => false
    case Lost(_, _) => false
    case Cleaning(a, _) => j > l.i || (j == l.i && b > a)
    case Releasing(a, _) => j > l.i || (j == l.i && b > a)
    case _ => j > l.i || (j == l.i && b >= l.pc.a)
  }

  /** Two scripts give the same answers from here on. */
  ghost predicate SameFrom(l: Local, chain: seq<Entry>, other: seq<Entry>) {
    && |chain| == |other|
    && (forall j | 0 <= j < |chain| && LooksAt(l, j) :: chain[j].available == other[j].available && chain[j].adapter == other[j].adapter)
    && (forall j, b: nat | 0 <= j < |chain| && AsksFor(l, j, b) :: chain[j].attempt(b) == other[j].attempt(b))
    && (l.pc.Cleaning? && l.i < |chain| ==>
          chain[l.i].attempt(l.pc.a).Ran? && other[l.i].attempt(l.pc.a).Ran?
          && chain[l.i].attempt(l.pc.a).cleans == other[l.i].attempt(l.pc.a).cleans)
  }

  /** Each question is asked at most once: what comes after a step never asks what the step was told. */
  lemma QuestionsShrink(rules: Rules, families: seq<string>, l: Local, input: Input)
    requires WellPlaced(rules, families, l) && Advance(rules, families, l, input).Some?
    ensures var l' := Advance(rules, families, l, input).value;
      && (forall j: nat | LooksAt(l', j) :: LooksAt(l, j) && (l.pc.AtEntry? && l.i < |families| ==> j != l.i))
      && (forall j: nat, b: nat | AsksFor(l', j, b) ::
            && AsksFor(l, j, b)
            && (l.pc.Asking? && !l'.pc.Holding? ==> (j, b) != (l.i, l.pc.a))
            && (l.pc.Holding? && !l'.pc.Running? ==> (j, b) != (l.i, l.pc.a))
            && (l.pc.Running? ==> (j, b) != (l.i, l.pc.a)))
  {
    hide Judge, Exhausted, FamilyExhausted;
  }

  lemma {:induction false} ScriptShape(rules: Rules, families: seq<string>, l: Local, inputs: seq<Input>)
    ensures Scripted(families, ScriptOf(rules, families, l, inputs))
    decreases |inputs|
  {
    if inputs != [] {
      var next := Advance(rules, families, l, inputs[0]);
      if next.Some? {
        ScriptShape(rules, families, next.value, inputs[1..]);
      }
      hide Advance;
    }
  }

  /** Where a lease is held, the script grants it; where a handle is held, it started. */
  lemma {:induction false} ScriptGrants(rules: Rules, families: seq<string>, l: Local, inputs: seq<Input>)
    requires WellPlaced(rules, families, l) && Cancel !in inputs
    ensures var chain := ScriptOf(rules, families, l, inputs);
      && |chain| == |families|
      && (l.pc.Holding? ==> l.i < |chain| && chain[l.i].attempt(l.pc.a).Granted())
      && (l.pc.Running? || l.pc.Cleaning? ==> l.i < |chain| && chain[l.i].attempt(l.pc.a).Ran?)
    decreases |inputs|
  {
    ScriptShape(rules, families, l, inputs);
    if inputs != [] {
      var next := Advance(rules, families, l, inputs[0]);
      if next.Some? {
        AdvanceWellPlaced(rules, families, l, inputs[0]);
        ScriptShape(rules, families, next.value, inputs[1..]);
        ScriptGrants(rules, families, next.value, inputs[1..]);
        hide Judge, Exhausted, FamilyExhausted;
      }
    }
  }

  /** A script that answers as the run's own from here on agrees with the next input, and answers as the rest
      of the run does after it. */
  lemma ScriptStep(rules: Rules, families: seq<string>, l: Local, inputs: seq<Input>, chain: seq<Entry>)
    requires WellPlaced(rules, families, l) && inputs != [] && Cancel !in inputs
    requires Advance(rules, families, l, inputs[0]).Some? && SameFrom(l, chain, ScriptOf(rules, families, l, inputs))
    ensures Agrees(chain, l, inputs[0])
    ensures var l' := Advance(rules, families, l, inputs[0]).value; SameFrom(l', chain, ScriptOf(rules, families, l', inputs[1..]))
  {
    ScriptStepAgrees(rules, families, l, inputs, chain);
    ScriptStepSame(rules, families, l, inputs, chain);
  }

  lemma ScriptStepAgrees(rules: Rules, families: seq<string>, l: Local, inputs: seq<Input>, chain: seq<Entry>)
    requires WellPlaced(rules, families, l) && inputs != [] && Cancel !in inputs
    requires Advance(rules, families, l, inputs[0]).Some? && SameFrom(l, chain, ScriptOf(rules, families, l, inputs))
    ensures Agrees(chain, l, inputs[0])
  {
    var l' := Advance(rules, families, l, inputs[0]).value;
    AdvanceWellPlaced(rules, families, l, inputs[0]);
    ScriptGrants(rules, families, l', inputs[1..]);
    ScriptShape(rules, families, l', inputs[1..]);
    hide Judge, Exhausted, FamilyExhausted, Began, Logged;
  }

  lemma ScriptStepSame(rules: Rules, families: seq<string>, l: Local, inputs: seq<Input>, chain: seq<Entry>)
    requires WellPlaced(rules, families, l) && inputs != [] && Cancel !in inputs
    requires Advance(rules, families, l, inputs[0]).Some? && SameFrom(l, chain, ScriptOf(rules, families, l, inputs))
    ensures var l' := Advance(rules, families, l, inputs[0]).value; SameFrom(l', chain, ScriptOf(rules, families, l', inputs[1..]))
  {
    var l' := Advance(rules, families, l, inputs[0]).value;
    QuestionsShrink(rules, families, l, inputs[0]);
    AdvanceWellPlaced(rules, families, l, inputs[0]);
    ScriptGrants(rules, families, l', inputs[1..]);
    ScriptShape(rules, families, l', inputs[1..]);
    var script, later := ScriptOf(rules, families, l, inputs), ScriptOf(rules, families, l', inputs[1..]);
    assert |script| == |later| by { ScriptShape(rules, families, l, inputs); }
    forall j | 0 <= j < |chain| && LooksAt(l', j) ensures chain[j].available == later[j].available && chain[j].adapter == later[j].adapter {
      ScriptKeepsLooks(rules, families, l, inputs, j);
    }
    forall j, b: nat | 0 <= j < |chain| && AsksFor(l', j, b) ensures chain[j].attempt(b) == later[j].attempt(b) {
      ScriptKeepsAnswers(rules, families, l, inputs, j, b);
    }
    if l'.pc.Cleaning? && l'.i < |chain| {
      ScriptKeepsCleanup(rules, families, l, inputs, chain);
    }
    hide Advance, ScriptOf, LooksAt, AsksFor;
  }

  lemma ScriptKeepsLooks(rules: Rules, families: seq<string>, l: Local, inputs: seq<Input>, j: nat)
    requires WellPlaced(rules, families, l) && inputs != [] && Cancel !in inputs && Advance(rules, families, l, inputs[0]).Some?
    requires var l' := Advance(rules, families, l, inputs[0]).value; j < |families| && LooksAt(l', j)
    ensures var script, later := ScriptOf(rules, families, l, inputs), ScriptOf(rules, families, Advance(rules, families, l, inputs[0]).value, inputs[1..]);
      j < |script| && j < |later| && script[j].available == later[j].available && script[j].adapter == later[j].adapter
  {
    QuestionsShrink(rules, families, l, inputs[0]);
    ScriptShape(rules, families, Advance(rules, families, l, inputs[0]).value, inputs[1..]);
    hide Judge, Exhausted, FamilyExhausted, Began, Logged;
  }

  lemma ScriptKeepsAnswers(rules: Rules, families: seq<string>, l: Local, inputs: seq<Input>, j: nat, b: nat)
    requires WellPlaced(rules, families, l) && inputs != [] && Cancel !in inputs && Advance(rules, families, l, inputs[0]).Some?
    requires var l' := Advance(rules, families, l, inputs[0]).value; j < |families| && AsksFor(l', j, b)
    ensures var script, later := ScriptOf(rules, families, l, inputs), ScriptOf(rules, families, Advance(rules, families, l, inputs[0]).value, inputs[1..]);
      j < |script| && j < |later| && script[j].attempt(b) == later[j].attempt(b)
  {
    QuestionsShrink(rules, families, l, inputs[0]);
    ScriptShape(rules, families, Advance(rules, families, l, inputs[0]).value, inputs[1..]);
    hide Judge, Exhausted, FamilyExhausted, Began, Logged;
  }

  lemma ScriptKeepsCleanup(rules: Rules, families: seq<string>, l: Local, inputs: seq<Input>, chain: seq<Entry>)
    requires WellPlaced(rules, families, l) && inputs != [] && Cancel !in inputs && Advance(rules, families, l, inputs[0]).Some?
    requires SameFrom(l, chain, ScriptOf(rules, families, l, inputs))
    requires var l' := Advance(rules, families, l, inputs[0]).value; l'.pc.Cleaning? && l'.i < |chain|
    ensures var l' := Advance(rules, families, l, inputs[0]).value;
            var later := ScriptOf(rules, families, l', inputs[1..]);
      && l'.i < |later| && chain[l'.i].attempt(l'.pc.a).Ran? && later[l'.i].attempt(l'.pc.a).Ran?
      && chain[l'.i].attempt(l'.pc.a).cleans == later[l'.i].attempt(l'.pc.a).cleans
  {
    var l' := Advance(rules, families, l, inputs[0]).value;
    assert l.pc.Running? && inputs[0].End? && l'.i == l.i && l'.pc.a == l.pc.a;
    AdvanceWellPlaced(rules, families, l, inputs[0]);
    ScriptGrants(rules, families, l', inputs[1..]);
    ScriptShape(rules, families, l', inputs[1..]);
    hide Judge, Exhausted, FamilyExhausted, Began, Logged;
  }

  lemma {:induction false} ScriptAgrees(rules: Rules, families: seq<string>, l: Local, inputs: seq<Input>, chain: seq<Entry>)
    requires WellPlaced(rules, families, l) && Feed(rules, families, l, inputs).Some? && Cancel !in inputs
    requires SameFrom(l, chain, ScriptOf(rules, families, l, inputs))
    ensures AllAgree(rules, families, chain, l, inputs)
    decreases |inputs|
  {
    if inputs != [] {
      ScriptStep(rules, families, l, inputs, chain);
      AdvanceWellPlaced(rules, families, l, inputs[0]);
      hide Advance, SameFrom, Agrees, ScriptOf;
      ScriptAgrees(rules, families, Advance(rules, families, l, inputs[0]).value, inputs[1..], chain);
    }
  }

  /** So no script has to be assumed: every uncancelled dispatch that ends is a run of the recursive
      specification on the script its own answers amount to. */
  lemma EveryRunMeetsSpecification(rules: Rules, families: seq<string>, inputs: seq<Input>)
    requires Feed(rules, families, START, inputs).Some? && Cancel !in inputs
    ensures var chain := ScriptOf(rules, families, START, inputs);
      && Scripted(families, chain) && AllAgree(rules, families, chain, START, inputs)
      && var l := Feed(rules, families, START, inputs).value;
         Ended(l) ==> (l.pc.verdict, l.t) == Dispatch(rules, chain)
  {
    var chain := ScriptOf(rules, families, START, inputs);
    ScriptShape(rules, families, START, inputs);
    ScriptAgrees(rules, families, START, inputs, chain);
    if Ended(Feed(rules, families, START, inputs).value) {
      MachineRefinesSpecification(rules, families, chain, inputs);
    }
  }
}
