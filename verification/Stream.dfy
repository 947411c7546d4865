/** Streaming dispatch with fallback (`Dispatcher.execute_stream` in gpucall/dispatcher.py). */
module Stream {
  import opened Wrappers
  import opened ProviderErrors
  import opened Fallback
  import opened FallbackProperties

  /** What the adapter's stream produces: raw events, then a normal end or a problem. */
  datatype Attempt =
    | Denied
    | AskFailed(timedOut: bool)                          // asking for admission raised
    | LeftAsking                                         // cancelled while asking
    | NotStarted(problem: Problem)
    | LeftStarting                                       // cancelled inside `start`
    | Flow(events: seq<string>, end: Option<Problem>, cleans: bool)   // `cleans` unless the cleanup raises
  {
    predicate Granted() { NotStarted? || LeftStarting? || Flow? }
  }

  datatype Entry = Entry(available: bool, adapter: bool, family: string, attempt: Attempt)

  /** `Escaped` is an exception other than a `TupleError`, from an `except` clause or from the cleanup. */
  datatype Verdict = Completed | Failing(error: TupleError) | ClosedByCaller | Escaped

  const FRAME_ERROR := TupleError(NoCode, true, 502)

  predicate EndsWith(event: string, suffix: string) {
    |event| >= |suffix| && event[|event| - |suffix|..] == suffix
  }

  predicate StartsWith(event: string, prefix: string) {
    prefix <= event
  }

  /** An event the caller may see: one SSE comment or data frame. */
  predicate Framed(event: string) {
    EndsWith(event, "\n\n") && (StartsWith(event, ": ") || StartsWith(event, ":\n") || StartsWith(event, "data: "))
  }

  /** The events of an attempt that pass validation, up to the first that does not. */
  function Valid(events: seq<string>): seq<string> {
    if events == [] || !Framed(events[0]) then [] else [events[0]] + Valid(events[1..])
  }

  /** How a stream left to run ends. */
  function EndOf(flow: Attempt): Option<Problem>
    requires flow.Flow?
  {
    if |Valid(flow.events)| < |flow.events| then Some(Reported(FRAME_ERROR)) else flow.end
  }

  /** The caller may close the stream on receiving its n-th event, or be cancelled while it waits for the next
      one (for the first, when n is 0); `None` reads to the end. */
  type Patience = Option<nat>

  predicate Closes(patience: Patience, received: nat) {
    patience.Some? && received >= patience.value
  }

  function Received(flow: Attempt, patience: Patience): seq<string>
    requires flow.Flow?
  {
    var all := Valid(flow.events);
    if Closes(patience, |all|) then all[..patience.value] else all
  }

  datatype Outcome = Outcome(verdict: Verdict, received: seq<string>, tally: Tally)

  function Failure(problem: Problem): TupleError
    requires !problem.Escaping?
  {
    match problem
    case Reported(e) => e
    case TimedOut => TIMEOUT_ERROR
    case Unexpected => UNEXPECTED_ERROR
  }

  function StreamSuppression(problem: Problem, i: nat): seq<Event> {
    match problem
    case Reported(e) => if e.code.Provider? then [Suppressed(i, SuppressesFamily(e.code))] else []
    case TimedOut => [Suppressed(i, SuppressesFamily(TIMEOUT_ERROR.code))]
    case Unexpected => []
    case Escaping(suppressed) => if suppressed.Some? then [Suppressed(i, suppressed.value)] else []
  }

  /** Fallback is possible only while nothing has been delivered. */
  predicate MayFallBack(problem: Problem, delivered: bool) {
    !delivered && (problem.Reported? ==> FallbackEligible(problem.error))
  }

  function Emitted(t: Tally, events: seq<Event>): Tally {
    t.(trace := t.trace + events)
  }

  /** How one chain entry is left: the run is over, or the next entry is tried. */
  datatype Next = Over(outcome: Outcome) | Onward(tally: Tally)

  function GiveUp(t: Tally): Outcome {
    Outcome(Failing(if t.last.Some? then t.last.value else NO_ADAPTER_ERROR), [], t)
  }

  function Leasing(t: Tally, i: nat, family: string, handle: bool): Tally {
    if handle then Emitted(Began(t, i, 1, family), [Started(i, 1)]) else Began(t, i, 1, family)
  }

  /** The `except` and `finally` blocks after a problem. */
  function Failed(t: Tally, i: nat, received: seq<string>, handle: bool, problem: Problem): Next {
    var closed := Closed(Emitted(t, StreamSuppression(problem, i)), i, 1, handle);
    if problem.Escaping? then Over(Outcome(Verdict.Escaped, received, closed))
    else
      var t := closed.(last := Some(Failure(problem)));
      if MayFallBack(problem, received != []) then Onward(t) else Over(Outcome(Failing(Failure(problem)), received, t))
  }

  /** A raising cleanup: the `except` blocks have run, the release has not. */
  function LeftOpen(t: Tally, i: nat, received: seq<string>, stopper: Option<Problem>): Next {
    Over(Outcome(Verdict.Escaped, received, if stopper.Some? then Emitted(t, StreamSuppression(stopper.value, i)) else t))
  }

  /** What stops an attempt, `None` when the caller closes it or it runs to its end. */
  function Stopper(met: Attempt, patience: Patience): Option<Problem>
    requires met.Granted()
  {
    if met.NotStarted? then Some(met.problem)
    else if met.LeftStarting? || Closes(patience, |Valid(met.events)|) then None
    else EndOf(met)
  }

  /** Whether the caller was gone when the attempt ended. */
  predicate Abandoned(met: Attempt, patience: Patience)
    requires met.Granted()
  {
    met.LeftStarting? || (met.Flow? && Closes(patience, |Valid(met.events)|))
  }

  /** The events one attempt delivers to a caller of the given patience. */
  function Delivered(met: Attempt, patience: Patience): seq<string> {
    if met.Flow? then Received(met, patience) else []
  }

  function OneEntry(rules: Rules, e: Entry, patience: Patience, t: Tally, i: nat): Next {
    if !e.available || !e.adapter then Onward(t)
    else if Exhausted(rules, t) then Over(GiveUp(t))
    else if FamilyExhausted(rules, t, e.family) || e.attempt.Denied? then Onward(t.(last := Some(CAPACITY_ERROR)))
    else if e.attempt.LeftAsking? then Over(Outcome(ClosedByCaller, [], t))
    else if e.attempt.AskFailed? then
      var problem := AskProblem(e.attempt.timedOut);
      Onward(Emitted(t, StreamSuppression(problem, i)).(last := Some(Failure(problem))))
    else
      var t := Leasing(t, i, e.family, e.attempt.Flow?);
      var received, stopper := Delivered(e.attempt, patience), Stopper(e.attempt, patience);
      if e.attempt.Flow? && !e.attempt.cleans then LeftOpen(t, i, received, stopper)
      else if stopper.Some? then Failed(t, i, received, e.attempt.Flow?, stopper.value)
      else Over(Outcome(if Abandoned(e.attempt, patience) then ClosedByCaller else Completed, received, Closed(t, i, 1, e.attempt.Flow?)))
  }

  function Run(rules: Rules, chain: seq<Entry>, patience: Patience, i: nat, t: Tally): Outcome
    requires i <= |chain|
    decreases |chain| - i
  {
    if i == |chain| then GiveUp(t)
    else match OneEntry(rules, chain[i], patience, t, i)
      case Over(o) => o
      case Onward(t') => Run(rules, chain, patience, i + 1, t')
  }

  function StreamDispatch(rules: Rules, chain: seq<Entry>, patience: Patience): Outcome {
    Run(rules, chain, patience, 0, FRESH)
  }

  // ---------------------------------------------------------------- the loop

  lemma ValidStep(events: seq<string>, k: nat)
    requires k < |events| && |Valid(events)| >= k
    ensures Framed(events[k]) <==> |Valid(events)| > k
    decreases k
  {
    if k > 0 {
      ValidStep(events[1..], k - 1);
    }
  }

  lemma ValidIsPrefix(events: seq<string>)
    ensures Valid(events) <= events
    ensures forall event | event in Valid(events) :: Framed(event)
  {}

  /** The inner loop: pull, validate, yield. `problem` is what stopped it; `closed` that the caller did. */
  method Pull(flow: Attempt, patience: Patience) returns (received: seq<string>, closed: bool, problem: Option<Problem>)
    requires flow.Flow?
    ensures received == Received(flow, patience)
    ensures closed <==> Closes(patience, |Valid(flow.events)|)
    ensures !closed ==> problem == EndOf(flow)
  {
    received, closed, problem := [], false, None;
    ValidIsPrefix(flow.events);
    var k := 0;
    while k < |flow.events|
      invariant 0 <= k <= |flow.events|
      invariant |Valid(flow.events)| >= k && received == flow.events[..k]
      invariant k > 0 ==> !Closes(patience, k - 1)
    {
      if Closes(patience, k) {
        closed := true;
        return;
      }
      var event := flow.events[k];
      ValidStep(flow.events, k);
      if !Framed(event) {
        problem := Some(Reported(FRAME_ERROR));
        return;
      }
      received := received + [event];
      k := k + 1;
    }
    closed, problem := Closes(patience, k), flow.end;
  }

  /** How the body of the loop over the chain is left. */
  datatype Exit = Leave(verdict: Verdict) | Resume

  /** One chain entry whose admission was granted, through the end of the `finally` block. */
  method StreamLeased(entry: Entry, patience: Patience, here: nat, last0: Option<TupleError>, events0: seq<Event>, ghost t: Tally)
    returns (exit: Exit, received: seq<string>, last: Option<TupleError>, events: seq<Event>)
    requires entry.attempt.Granted() && t.last == last0 && t.trace == events0
    ensures var want := if entry.attempt.Flow? && !entry.attempt.cleans
                        then LeftOpen(t, here, Delivered(entry.attempt, patience), Stopper(entry.attempt, patience))
                        else if Stopper(entry.attempt, patience).Some?
                        then Failed(t, here, Delivered(entry.attempt, patience), entry.attempt.Flow?, Stopper(entry.attempt, patience).value)
                        else Over(Outcome(if Abandoned(entry.attempt, patience) then ClosedByCaller else Completed,
                                          Delivered(entry.attempt, patience), Closed(t, here, 1, entry.attempt.Flow?)));
      match exit
      case Leave(verdict) => want == Over(Outcome(verdict, received, t.(last := last, trace := events)))
      case Resume => received == [] && want == Onward(t.(last := last, trace := events))
  {
    received, last, events := [], last0, events0;
    var problem: Option<Problem>, closed := None, false;
    if entry.attempt.Flow? {
      received, closed, problem := Pull(entry.attempt, patience);
    } else if entry.attempt.NotStarted? {
      problem := Some(entry.attempt.problem);
    } else {
      closed := true;
    }
    if !closed && problem.Some? {
      events := events + StreamSuppression(problem.value, here);
      if problem.value.Escaping? {
        exit := Leave(Verdict.Escaped);
      } else {
        last := Some(Failure(problem.value));
        exit := if MayFallBack(problem.value, received != []) then Resume else Leave(Failing(Failure(problem.value)));
      }
    } else {
      exit := Leave(if closed then ClosedByCaller else Completed);
    }
    if entry.attempt.Flow? && !entry.attempt.cleans {
      exit, last := Leave(Verdict.Escaped), last0;
    } else if entry.attempt.Flow? {
      events := events + [Cleaned(here, 1)] + [Released(here, 1)];
    } else {
      assert events + [] == events;
      events := events + [Released(here, 1)];
    }
  }

  method ExecuteStream(rules: Rules, chain: seq<Entry>, patience: Patience)
    returns (verdict: Verdict, received: seq<string>, startedAttempts: nat, events: seq<Event>)
    ensures var want := StreamDispatch(rules, chain, patience);
      verdict == want.verdict && received == want.received && startedAttempts == want.tally.started && events == want.tally.trace
  {
    var lastError: Option<TupleError> := None;
    var familyAttempts: map<string, nat> := map[];
    startedAttempts, events, received := 0, [], [];
    ghost var starts: seq<Start> := [];
    hide Failed, Stopper, Delivered;
    var i: nat := 0;
    while i < |chain|
      invariant 0 <= i <= |chain| && received == []
      invariant Run(rules, chain, patience, i, Tally(startedAttempts, familyAttempts, lastError, starts, events)) == StreamDispatch(rules, chain, patience)
    {
      var entry, here := chain[i], i;
      i := i + 1;
      if !entry.available || !entry.adapter {
        continue;
      }
      if rules.maxAttempts > 0 && startedAttempts >= rules.maxAttempts {
        break;
      }
      if rules.maxFamilyAttempts > 0 && Count(familyAttempts, entry.family) >= rules.maxFamilyAttempts {
        lastError := Some(CAPACITY_ERROR);
        continue;
      }
      if entry.attempt.Denied? {
        lastError := Some(CAPACITY_ERROR);
        continue;
      }
      if entry.attempt.LeftAsking? {
        return ClosedByCaller, [], startedAttempts, events;
      }
      if entry.attempt.AskFailed? {
        var problem := AskProblem(entry.attempt.timedOut);
        events := events + StreamSuppression(problem, here);
        lastError := Some(Failure(problem));
        continue;
      }
      startedAttempts := startedAttempts + 1;
      familyAttempts := familyAttempts[entry.family := Count(familyAttempts, entry.family) + 1];
      starts := starts + [Start(here, 1, entry.family)];
      events := events + [Leased(here, 1)];
      if entry.attempt.Flow? {
        events := events + [Started(here, 1)];
      }
      var exit;
      exit, received, lastError, events := StreamLeased(entry, patience, here, lastError, events,
                                                        Tally(startedAttempts, familyAttempts, lastError, starts, events));
      if exit.Leave? {
        return exit.verdict, received, startedAttempts, events;
      }
    }
    verdict := Failing(if lastError.Some? then lastError.value else NO_ADAPTER_ERROR);
  }

  // ---------------------------------------------------------------- properties

  function Result(next: Next): Tally {
    match next
    case Over(o) => o.tally
    case Onward(t) => t
  }

  /** Everything received comes from the last attempt started; the attempts before it delivered nothing. */
  ghost predicate Unspliced(chain: seq<Entry>, patience: Patience, o: Outcome) {
    var starts := o.tally.starts;
    && (forall k | 0 <= k < |starts| :: starts[k].entry < |chain|)
    && (forall k | 0 <= k < |starts| - 1 :: Delivered(chain[starts[k].entry].attempt, patience) == [])
    && (if starts == [] then o.received == []
        else o.received == Delivered(chain[starts[|starts| - 1].entry].attempt, patience))
    && (forall event | event in o.received :: Framed(event))
    && (o.verdict.Completed? ==>
          && starts != []
          && var met := chain[starts[|starts| - 1].entry].attempt;
             met.Flow? && o.received == met.events && met.end.None?)
  }

  ghost predicate NothingDelivered(chain: seq<Entry>, patience: Patience, starts: seq<Start>) {
    forall k | 0 <= k < |starts| :: starts[k].entry < |chain| && Delivered(chain[starts[k].entry].attempt, patience) == []
  }

  lemma DeliveredIsFramedPrefix(met: Attempt, patience: Patience)
    ensures forall event | event in Delivered(met, patience) :: Framed(event)
    ensures met.Flow? ==> Delivered(met, patience) <= met.events
    ensures met.Flow? && Stopper(met, patience).None? && !Abandoned(met, patience)
        ==> Delivered(met, patience) == met.events && met.end.None?
  {
    if met.Flow? {
      ValidIsPrefix(met.events);
    }
  }

  /** What one entry adds to the starts, and to what the caller has received. */
  lemma OneEntryStarts(rules: Rules, e: Entry, patience: Patience, t: Tally, i: nat)
    ensures match OneEntry(rules, e, patience, t, i)
      case Over(o) =>
        || (o.tally.starts == t.starts && o.received == [] && !o.verdict.Completed?)
        || (o.tally.starts == t.starts + [Start(i, 1, e.family)] && e.attempt.Granted() && o.received == Delivered(e.attempt, patience)
            && (o.verdict.Completed? ==> e.attempt.Flow? && Stopper(e.attempt, patience).None? && !Abandoned(e.attempt, patience)))
      case Onward(t') =>
        || t'.starts == t.starts
        || (t'.starts == t.starts + [Start(i, 1, e.family)] && Delivered(e.attempt, patience) == [])
  {
    hide Framed, FamilyExhausted, Exhausted, FallbackEligible, StreamSuppression, Valid, Received, Failure;
  }

  lemma OneEntryUnspliced(rules: Rules, chain: seq<Entry>, patience: Patience, t: Tally, i: nat)
    requires i < |chain| && NothingDelivered(chain, patience, t.starts)
    ensures match OneEntry(rules, chain[i], patience, t, i)
      case Over(o) => Unspliced(chain, patience, o)
      case Onward(t') => NothingDelivered(chain, patience, t'.starts)
  {
    OneEntryStarts(rules, chain[i], patience, t, i);
    DeliveredIsFramedPrefix(chain[i].attempt, patience);
    hide OneEntry, Delivered, Stopper, Framed, Abandoned;
  }

  lemma {:induction false} RunUnspliced(rules: Rules, chain: seq<Entry>, patience: Patience, i: nat, t: Tally)
    requires i <= |chain| && NothingDelivered(chain, patience, t.starts)
    ensures Unspliced(chain, patience, Run(rules, chain, patience, i, t))
    decreases |chain| - i
  {
    if i < |chain| {
      OneEntryUnspliced(rules, chain, patience, t, i);
      hide OneEntry, Unspliced, NothingDelivered;
      match OneEntry(rules, chain[i], patience, t, i)
      case Over(_) =>
      case Onward(t') => RunUnspliced(rules, chain, patience, i + 1, t');
    }
  }

  /** No splice: whatever the chain does, the caller receives framed events of one single attempt, in its
      order and from its beginning, and a completed stream is that attempt's whole event sequence. */
  lemma NoSplice(rules: Rules, chain: seq<Entry>, patience: Patience)
    ensures var o := StreamDispatch(rules, chain, patience);
      && Unspliced(chain, patience, o)
      && (o.received != [] ==>
            && o.tally.starts != []
            && var met := chain[o.tally.starts[|o.tally.starts| - 1].entry].attempt;
               met.Flow? && o.received <= met.events)
  {
    RunUnspliced(rules, chain, patience, 0, FRESH);
    var starts := StreamDispatch(rules, chain, patience).tally.starts;
    if starts != [] {
      DeliveredIsFramedPrefix(chain[starts[|starts| - 1].entry].attempt, patience);
    }
  }

  lemma SuppressionTracks(t: Tally, i: nat, problem: Problem)
    requires Track(t.trace) in {Free, LeaseHeld(i, 1), HandleHeld(i, 1)}
    ensures Track(Emitted(t, StreamSuppression(problem, i)).trace) == Track(t.trace)
  {
    var emitted := StreamSuppression(problem, i);
    if emitted == [] {
      assert t.trace + emitted == t.trace;
    } else {
      TrackAppend(t.trace, emitted[0]);
    }
  }

  lemma LeasingTracks(t: Tally, i: nat, family: string, handle: bool)
    requires Track(t.trace) == Free
    ensures Track(Leasing(t, i, family, handle).trace) == if handle then HandleHeld(i, 1) else LeaseHeld(i, 1)
  {
    var b := Began(t, i, 1, family);
    TrackAppend(t.trace, Leased(i, 1));
    TrackAppend(b.trace, Started(i, 1));
  }

  /** The attempt's cleanup raises. */
  predicate CleanupRaises(met: Attempt) { met.Flow? && !met.cleans }

  lemma OneEntryTracks(rules: Rules, e: Entry, patience: Patience, t: Tally, i: nat)
    requires Track(t.trace) == Free
    ensures match OneEntry(rules, e, patience, t, i)
      case Onward(t') => Track(t'.trace) == Free && (t'.starts == t.starts || (t'.starts == t.starts + [Start(i, 1, e.family)] && !CleanupRaises(e.attempt)))
      case Over(o) =>
        || (o.tally.starts == t.starts && Track(o.tally.trace) == Free)
        || (o.tally.starts == t.starts + [Start(i, 1, e.family)]
            && Track(o.tally.trace) == if CleanupRaises(e.attempt) then HandleHeld(i, 1) else Free)
  {
    if e.attempt.AskFailed? {
      SuppressionTracks(t, i, AskProblem(e.attempt.timedOut));
    } else if e.attempt.Granted() {
      GrantedTracks(e, patience, t, i);
    }
    hide Track, Failed, LeftOpen, Leasing, Stopper, StreamSuppression, Exhausted, FamilyExhausted, Delivered, Closed;
  }

  /** Whatever stops an attempt, only a raising cleanup leaves its bracket open. */
  lemma GrantedTracks(e: Entry, patience: Patience, t: Tally, i: nat)
    requires Track(t.trace) == Free && e.attempt.Granted()
    ensures var r, stopper := Leasing(t, i, e.family, e.attempt.Flow?), Stopper(e.attempt, patience);
            var starts := t.starts + [Start(i, 1, e.family)];
      if CleanupRaises(e.attempt) then
        var left := Result(LeftOpen(r, i, Delivered(e.attempt, patience), stopper));
        Track(left.trace) == HandleHeld(i, 1) && left.starts == starts
      else if stopper.Some? then
        var failed := Result(Failed(r, i, Delivered(e.attempt, patience), e.attempt.Flow?, stopper.value));
        Track(failed.trace) == Free && failed.starts == starts
      else
        Track(Closed(r, i, 1, e.attempt.Flow?).trace) == Free && Closed(r, i, 1, e.attempt.Flow?).starts == starts
  {
    LeasingTracks(t, i, e.family, e.attempt.Flow?);
    var r, stopper := Leasing(t, i, e.family, e.attempt.Flow?), Stopper(e.attempt, patience);
    assert r.starts == t.starts + [Start(i, 1, e.family)];
    hide Track, Stopper, Delivered, Leasing, Failed, LeftOpen;
    if CleanupRaises(e.attempt) {
      LeftOpenTracks(r, i, Delivered(e.attempt, patience), stopper);
    } else if stopper.Some? {
      FailedTracks(r, i, Delivered(e.attempt, patience), e.attempt.Flow?, stopper.value);
    } else {
      ClosedTracks(r, i, 1, e.attempt.Flow?);
    }
  }

  lemma LeftOpenTracks(r: Tally, i: nat, received: seq<string>, stopper: Option<Problem>)
    requires Track(r.trace) == HandleHeld(i, 1)
    ensures Track(Result(LeftOpen(r, i, received, stopper)).trace) == HandleHeld(i, 1)
    ensures Result(LeftOpen(r, i, received, stopper)).starts == r.starts
  {
    hide Track, StreamSuppression;
    if stopper.Some? {
      SuppressionTracks(r, i, stopper.value);
    }
  }

  lemma FailedTracks(r: Tally, i: nat, received: seq<string>, handle: bool, problem: Problem)
    requires Track(r.trace) == if handle then HandleHeld(i, 1) else LeaseHeld(i, 1)
    ensures Track(Result(Failed(r, i, received, handle, problem)).trace) == Free
    ensures Result(Failed(r, i, received, handle, problem)).starts == r.starts
  {
    SuppressionTracks(r, i, problem);
    ClosedTracks(Emitted(r, StreamSuppression(problem, i)), i, 1, handle);
    hide Track;
  }

  lemma OneEntryCounted(rules: Rules, e: Entry, patience: Patience, t: Tally, i: nat)
    requires Counted(rules, t)
    ensures Counted(rules, Result(OneEntry(rules, e, patience, t, i)))
  {
    hide Stopper, Delivered, FallbackEligible, StreamSuppression;
    var t' := Result(OneEntry(rules, e, patience, t, i));
    if e.available && e.adapter && !Exhausted(rules, t) && !FamilyExhausted(rules, t, e.family) && e.attempt.Granted() {
      BeganCounted(rules, t, i, 1, e.family);
      assert SameCounts(Began(t, i, 1, e.family), t');
    } else {
      assert SameCounts(t, t');
    }
  }

  ghost predicate AllClean(chain: seq<Entry>, starts: seq<Start>) {
    forall k | 0 <= k < |starts| :: starts[k].entry < |chain| && !CleanupRaises(chain[starts[k].entry].attempt)
  }

  /** Every lease bracket is closed if and only if no attempt made had a raising cleanup; such an attempt is the
      last one, and its lease and handle are all that is left. */
  ghost predicate Bracketed(chain: seq<Entry>, t: Tally) {
    && (forall k | 0 <= k < |t.starts| :: t.starts[k].entry < |chain|)
    && (Track(t.trace) == Free <==> AllClean(chain, t.starts))
    && (!AllClean(chain, t.starts) ==>
          && t.starts != [] && AllClean(chain, t.starts[..|t.starts| - 1])
          && Track(t.trace) == HandleHeld(t.starts[|t.starts| - 1].entry, 1))
  }

  lemma EntryBracketed(rules: Rules, chain: seq<Entry>, patience: Patience, i: nat, t: Tally)
    requires i < |chain| && Track(t.trace) == Free && AllClean(chain, t.starts)
    ensures match OneEntry(rules, chain[i], patience, t, i)
      case Onward(t') => Track(t'.trace) == Free && AllClean(chain, t'.starts)
      case Over(o) => Bracketed(chain, o.tally)
  {
    OneEntryTracks(rules, chain[i], patience, t, i);
    hide OneEntry, Track, CleanupRaises;
    var starts := t.starts + [Start(i, 1, chain[i].family)];
    assert starts[..|starts| - 1] == t.starts && starts[|t.starts|] == Start(i, 1, chain[i].family);
    assert forall k | 0 <= k < |t.starts| :: starts[k] == t.starts[k];
  }

  lemma {:induction false} RunKeepsDiscipline(rules: Rules, chain: seq<Entry>, patience: Patience, i: nat, t: Tally)
    requires i <= |chain| && Track(t.trace) == Free && AllClean(chain, t.starts) && Counted(rules, t)
    ensures var o := Run(rules, chain, patience, i, t); Bracketed(chain, o.tally) && Counted(rules, o.tally)
    decreases |chain| - i
  {
    if i < |chain| {
      EntryBracketed(rules, chain, patience, i, t);
      OneEntryCounted(rules, chain[i], patience, t, i);
      hide OneEntry, Track, Counted, AllClean, Bracketed;
      match OneEntry(rules, chain[i], patience, t, i)
      case Over(_) =>
      case Onward(t') => RunKeepsDiscipline(rules, chain, patience, i + 1, t');
    }
  }

  /** On every exit of a stream, completion, error, fallback, an escaping exception or the caller closing it: each
      handle was cleaned inside its lease and the lease released, if and only if the cleanup of no attempt made
      raised; the attempt caps hold as for a synchronous run. */
  lemma EveryStreamCleanedUp(rules: Rules, chain: seq<Entry>, patience: Patience)
    ensures Bracketed(chain, StreamDispatch(rules, chain, patience).tally)
    ensures Counted(rules, StreamDispatch(rules, chain, patience).tally)
  {
    RunKeepsDiscipline(rules, chain, patience, 0, FRESH);
  }
}
