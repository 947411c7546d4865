/** Synchronous dispatch with fallback (`Dispatcher.execute_sync` in gpucall/dispatcher.py).

    The world is a script: for every entry of the plan's tuple chain, whether the circuit
    breaker lets it through, whether an adapter is registered, and what each attempt on it
    meets. `Entries` and `Attempts` are the recursive specification; `ExecuteSync` is the
    nested loop with its exit paths.
  */
module Fallback {
  import opened Wrappers
  import opened ProviderErrors

  type Output = string

  datatype Attempt =
    | Denied                                           // admission refused, no lease
    | AskFailed(timedOut: bool)                        // asking for admission raised, no lease
    | NotStarted(problem: Problem)                     // leased, but the gate or `start` failed: no handle
    | Ran(outcome: Result<Output, Problem>, cleans: bool)  // leased and started; `cleans` unless the cleanup raises
  {
    predicate Granted() { NotStarted? || Ran? }
  }

  /** An admission controller raises no `TupleError` of its own. */
  function AskProblem(timedOut: bool): Problem { if timedOut then TimedOut else Unexpected }

  datatype Entry = Entry(available: bool, adapter: bool, family: string, attempt: nat -> Attempt)

  /** `attempts` is the plan's output_validation_attempts; a cap of zero is no cap. */
  datatype Rules = Rules(attempts: nat, strictSchema: bool, maxAttempts: nat, maxFamilyAttempts: nat)
  {
    function Attempts(): nat { if attempts == 0 then 1 else attempts }
  }

  /** `Escaped` is an exception other than a `TupleError`, from an `except` clause or from the cleanup.
      `Interrupted` is a cancellation from outside; no script leads to it. */
  datatype Verdict = Returned(output: Output) | Raised(error: TupleError) | Escaped | Interrupted

  datatype Event =
    | Leased(entry: nat, attempt: nat)
    | Started(entry: nat, attempt: nat)
    | Suppressed(entry: nat, wholeFamily: bool)
    | Cleaned(entry: nat, attempt: nat)
    | Released(entry: nat, attempt: nat)

  datatype Start = Start(entry: nat, attempt: nat, family: string)

  /** The loop's local variables, with the history they summarise. */
  datatype Tally = Tally(started: nat, families: map<string, nat>, last: Option<TupleError>,
                         starts: seq<Start>, trace: seq<Event>)

  const FRESH := Tally(0, map[], None, [], [])

  function Count(families: map<string, nat>, family: string): nat {
    if family in families then families[family] else 0
  }

  /** How an attempt leaves the inner loop: the run ends, the same entry is tried again, or the next entry is. */
  datatype Next =
    | Stop(verdict: Verdict, tally: Tally)
    | Again(tally: Tally)
    | Move(tally: Tally)

  predicate Exhausted(rules: Rules, t: Tally) {
    rules.maxAttempts > 0 && t.started >= rules.maxAttempts
  }

  predicate FamilyExhausted(rules: Rules, t: Tally, family: string) {
    rules.maxFamilyAttempts > 0 && Count(t.families, family) >= rules.maxFamilyAttempts
  }

  function Began(t: Tally, i: nat, a: nat, family: string): Tally {
    t.(started := t.started + 1,
       families := t.families[family := Count(t.families, family) + 1],
       starts := t.starts + [Start(i, a, family)],
       trace := t.trace + [Leased(i, a)])
  }

  function Suppression(problem: Problem, i: nat): seq<Event> {
    match problem
    case Reported(e) =>
      if !IsOutputRejection(e.code) && e.code.Provider? then [Suppressed(i, SuppressesFamily(e.code))] else []
    case TimedOut => [Suppressed(i, SuppressesFamily(TIMEOUT_ERROR.code))]
    case Unexpected => []
    case Escaping(suppressed) => if suppressed.Some? then [Suppressed(i, suppressed.value)] else []
  }

  /** The `finally` block: clean a started handle, then release the lease. */
  function Closed(t: Tally, i: nat, a: nat, handle: bool): Tally {
    t.(trace := t.trace + (if handle then [Cleaned(i, a)] else []) + [Released(i, a)])
  }

  /** What a problem leads to, before the `finally` block. */
  function Judge(rules: Rules, t: Tally, i: nat, a: nat, problem: Problem): Next {
    var t := t.(trace := t.trace + Suppression(problem, i));
    match problem
    case TimedOut => Move(t.(last := Some(TIMEOUT_ERROR)))
    case Unexpected => Move(t.(last := Some(UNEXPECTED_ERROR)))
    case Escaping(_) => Stop(Escaped, t)
    case Reported(e) =>
      if IsOutputRejection(e.code) then
        if e.code == MalformedOutput && rules.strictSchema then Move(t.(last := Some(Final(e))))
        else if e.code == OutputTruncated then Stop(Raised(Final(e)), t.(last := Some(Final(e))))
        else if a < rules.Attempts() then Again(t.(last := Some(e)))
        else Move(t.(last := Some(Final(e))))
      else if FallbackEligible(e) then Move(t.(last := Some(e)))
      else Stop(Raised(e), t.(last := Some(e)))
  }

  function Finish(next: Next, i: nat, a: nat, handle: bool): Next {
    match next
    case Stop(v, t) => Stop(v, Closed(t, i, a, handle))
    case Again(t) => Again(Closed(t, i, a, handle))
    case Move(t) => Move(Closed(t, i, a, handle))
  }

  /** What a granted attempt leads to, through the end of the `finally` block. A cleanup that raises leaves the
      block before the release, with its own exception instead of whatever was under way. */
  function LeasedNext(rules: Rules, t: Tally, i: nat, a: nat, met: Attempt): Next
    requires met.Granted()
  {
    match met
    case NotStarted(problem) => Finish(Judge(rules, t, i, a, problem), i, a, false)
    case Ran(outcome, cleans) =>
      var t := t.(trace := t.trace + [Started(i, a)]);
      var next := if outcome.Ok? then Stop(Returned(outcome.value), t) else Judge(rules, t, i, a, outcome.error);
      if cleans then Finish(next, i, a, true) else Stop(Escaped, next.tally)
  }

  function OneAttempt(rules: Rules, e: Entry, t: Tally, i: nat, a: nat): Next {
    if Exhausted(rules, t) then Move(t)
    else if FamilyExhausted(rules, t, e.family) then Move(t.(last := Some(CAPACITY_ERROR)))
    else
      var met := e.attempt(a);
      if met.Denied? then Move(t.(last := Some(CAPACITY_ERROR)))
      else if met.AskFailed? then Judge(rules, t, i, a, AskProblem(met.timedOut))
      else LeasedNext(rules, Began(t, i, a, e.family), i, a, met)
  }

  function Entries(rules: Rules, chain: seq<Entry>, i: nat, t: Tally): (Verdict, Tally)
    requires i <= |chain|
    decreases |chain| - i, rules.Attempts() + 1
  {
    if i == |chain| then (Raised(if t.last.Some? then t.last.value else NO_ADAPTER_ERROR), t)
    else if !chain[i].available || !chain[i].adapter then Entries(rules, chain, i + 1, t)
    else Attempts(rules, chain, i, 1, t)
  }

  function Attempts(rules: Rules, chain: seq<Entry>, i: nat, a: nat, t: Tally): (Verdict, Tally)
    requires i < |chain| && 1 <= a <= rules.Attempts()
    decreases |chain| - i, rules.Attempts() - a
  {
    match OneAttempt(rules, chain[i], t, i, a)
    case Stop(v, t') => (v, t')
    case Again(t') => if a == rules.Attempts() then Entries(rules, chain, i + 1, t') else Attempts(rules, chain, i, a + 1, t')
    case Move(t') => Entries(rules, chain, i + 1, t')
  }

  function Dispatch(rules: Rules, chain: seq<Entry>): (Verdict, Tally) {
    Entries(rules, chain, 0, FRESH)
  }

  // ---------------------------------------------------------------- the nested loop

  /** The `except` clauses of one attempt. */
  method HandleProblem(rules: Rules, i: nat, attempt: nat, problem: Problem, last0: Option<TupleError>, ghost t: Tally)
    returns (lastError: Option<TupleError>, raised: Option<TupleError>, escaped: bool, again: bool, emitted: seq<Event>)
    requires t.last == last0
    ensures var next := Judge(rules, t, i, attempt, problem);
      && next.tally == t.(last := lastError, trace := t.trace + emitted)
      && (next.Again? <==> again)
      && (if escaped then next.Stop? && next.verdict == Escaped
          else if raised.Some? then next.Stop? && next.verdict == Raised(raised.value)
          else !next.Stop?)
  {
    raised, escaped, again, emitted := None, false, false, [];
    match problem
    case Reported(exc) =>
      lastError := Some(exc);
      if IsOutputRejection(exc.code) {
        var finalAttempt := exc.code == OutputTruncated || attempt >= rules.Attempts();
        if exc.code == MalformedOutput && rules.strictSchema {
          lastError := Some(Final(exc));
        } else if !finalAttempt {
          again := true;
        } else {
          lastError := Some(Final(exc));
          if exc.code == OutputTruncated {
            raised := lastError;
          }
        }
      } else {
        if exc.code.Provider? {
          emitted := [Suppressed(i, SuppressesFamily(exc.code))];
        }
        if !FallbackEligible(exc) {
          raised := Some(exc);
        }
      }
    case TimedOut =>
      lastError := Some(TIMEOUT_ERROR);
      emitted := [Suppressed(i, SuppressesFamily(TIMEOUT_ERROR.code))];
    case Unexpected =>
      lastError := Some(UNEXPECTED_ERROR);
    case Escaping(suppressed) =>
      lastError, escaped := last0, true;
      if suppressed.Some? {
        emitted := [Suppressed(i, suppressed.value)];
      }
  }

  /** How the body of the inner loop is left. */
  datatype Exit = ReturnOut(output: Output) | RaiseOut(error: TupleError) | EscapeOut | Continue | Break

  predicate Exits(exit: Exit, next: Next) {
    match exit
    case ReturnOut(output) => next.Stop? && next.verdict == Returned(output)
    case RaiseOut(error) => next.Stop? && next.verdict == Raised(error)
    case EscapeOut => next.Stop? && next.verdict == Escaped
    case Continue => next.Again?
    case Break => next.Move?
  }

  /** The body of the inner loop, caps first and the `finally` block last. */
  method TryOnce(rules: Rules, entry: Entry, i: nat, attempt: nat,
                 started0: nat, families0: map<string, nat>, last0: Option<TupleError>, events0: seq<Event>, ghost starts0: seq<Start>)
    returns (exit: Exit, started: nat, families: map<string, nat>, last: Option<TupleError>, events: seq<Event>, ghost starts: seq<Start>)
    ensures var next := OneAttempt(rules, entry, Tally(started0, families0, last0, starts0, events0), i, attempt);
      next.tally == Tally(started, families, last, starts, events) && Exits(exit, next)
  {
    hide LeasedNext;
    started, families, last, events, starts := started0, families0, last0, events0, starts0;
    if rules.maxAttempts > 0 && started >= rules.maxAttempts {
      exit := Break;
      return;
    }
    if rules.maxFamilyAttempts > 0 && Count(families, entry.family) >= rules.maxFamilyAttempts {
      exit, last := Break, Some(CAPACITY_ERROR);
      return;
    }
    var met := entry.attempt(attempt);
    if met.Denied? {
      exit, last := Break, Some(CAPACITY_ERROR);
      return;
    }
    if met.AskFailed? {
      var raised, escaped, again, emitted;
      last, raised, escaped, again, emitted := HandleProblem(rules, i, attempt, AskProblem(met.timedOut), last,
                                                             Tally(started, families, last, starts, events));
      exit, events := Break, events + emitted;
      return;
    }
    started := started + 1;
    families := families[entry.family := Count(families, entry.family) + 1];
    starts := starts + [Start(i, attempt, entry.family)];
    exit, last, events := RunLeased(rules, i, attempt, met, last, events + [Leased(i, attempt)],
                                    Tally(started, families, last, starts, events + [Leased(i, attempt)]));
  }

  /** From the granted lease to the end of the `finally` block. */
  method RunLeased(rules: Rules, i: nat, attempt: nat, met: Attempt,
                   last0: Option<TupleError>, events0: seq<Event>, ghost t: Tally)
    returns (exit: Exit, last: Option<TupleError>, events: seq<Event>)
    requires met.Granted() && t.trace == events0 && t.last == last0
    ensures var next := LeasedNext(rules, t, i, attempt, met);
      next.tally == t.(last := last, trace := events) && Exits(exit, next)
  {
    hide Judge, Suppression;
    last, events := last0, events0;
    var handle := met.Ran?;
    if handle {
      events := events + [Started(i, attempt)];
    }
    if handle && met.outcome.Ok? {
      exit := ReturnOut(met.outcome.value);
    } else {
      var raised, escaped, again, emitted;
      last, raised, escaped, again, emitted := HandleProblem(rules, i, attempt, if handle then met.outcome.error else met.problem, last,
                                                             t.(last := last, trace := events));
      events := events + emitted;
      exit := if escaped then EscapeOut else if raised.Some? then RaiseOut(raised.value) else if again then Continue else Break;
    }
    assert events + [] == events;
    if handle {
      if !met.cleans {
        exit := EscapeOut;
        return;
      }
      events := events + [Cleaned(i, attempt)];
    }
    events := events + [Released(i, attempt)];
  }

  /** The nested loop. Its result, its two counters and its whole event history are the specification's. */
  method ExecuteSync(rules: Rules, chain: seq<Entry>)
    returns (verdict: Verdict, startedAttempts: nat, familyAttempts: map<string, nat>, events: seq<Event>)
    ensures verdict == Dispatch(rules, chain).0
    ensures startedAttempts == Dispatch(rules, chain).1.started
    ensures familyAttempts == Dispatch(rules, chain).1.families
    ensures events == Dispatch(rules, chain).1.trace
  {
    var lastError: Option<TupleError> := None;
    startedAttempts, familyAttempts, events := 0, map[], [];
    ghost var starts: seq<Start> := [];
    hide OneAttempt;
    var i: nat := 0;
    while i < |chain|
      invariant 0 <= i <= |chain|
      invariant Entries(rules, chain, i, Tally(startedAttempts, familyAttempts, lastError, starts, events)) == Dispatch(rules, chain)
    {
      if !chain[i].available || !chain[i].adapter {
        i := i + 1;
        continue;
      }
      var attempts := rules.Attempts();
      var attempt: nat := 1;
      var leave := false;
      while !leave && attempt <= attempts
        invariant 1 <= attempt <= attempts + 1
        invariant !leave && attempt <= attempts ==>
          Attempts(rules, chain, i, attempt, Tally(startedAttempts, familyAttempts, lastError, starts, events)) == Dispatch(rules, chain)
        invariant leave || attempt == attempts + 1 ==>
          Entries(rules, chain, i + 1, Tally(startedAttempts, familyAttempts, lastError, starts, events)) == Dispatch(rules, chain)
        decreases attempts - attempt, !leave
      {
        var exit;
        exit, startedAttempts, familyAttempts, lastError, events, starts :=
          TryOnce(rules, chain[i], i, attempt, startedAttempts, familyAttempts, lastError, events, starts);
        match exit
        case ReturnOut(output) => return Returned(output), startedAttempts, familyAttempts, events;
        case RaiseOut(error) => return Raised(error), startedAttempts, familyAttempts, events;
        case EscapeOut => return Escaped, startedAttempts, familyAttempts, events;
        case Continue => attempt := attempt + 1;
        case Break => leave := true;
      }
      i := i + 1;
    }
    verdict := Raised(if lastError.Some? then lastError.value else NO_ADAPTER_ERROR);
  }
}
