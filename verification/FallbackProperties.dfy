/** What every synchronous dispatch guarantees, for all rules, chains and scripts. */
module FallbackProperties {
  import opened Wrappers
  import opened ProviderErrors
  import opened Fallback
  import Admission

  // ---------------------------------------------------------------- attempt caps

  function CountFamily(starts: seq<Start>, family: string): nat {
    if starts == [] then 0
    else CountFamily(starts[..|starts| - 1], family) + if starts[|starts| - 1].family == family then 1 else 0
  }

  /** The counters are the history's, they add up, and no positive cap is exceeded. */
  ghost predicate Counted(rules: Rules, t: Tally) {
    && t.started == |t.starts|
    && (forall family :: Count(t.families, family) == CountFamily(t.starts, family))
    && t.started == Admission.Total(t.families, t.families.Keys)
    && (rules.maxAttempts > 0 ==> t.started <= rules.maxAttempts)
    && (rules.maxFamilyAttempts > 0 ==> forall family :: Count(t.families, family) <= rules.maxFamilyAttempts)
  }

  lemma CountFamilyAppend(starts: seq<Start>, s: Start, family: string)
    ensures CountFamily(starts + [s], family) == CountFamily(starts, family) + if s.family == family then 1 else 0
  {
    assert (starts + [s])[..|starts|] == starts;
  }

  /** Adding one to one key adds one to the sum, over any keys that include it. */
  lemma {:induction false} TotalBump(counters: map<string, nat>, bumped: map<string, nat>, key: string, keys: set<string>)
    requires key in keys
    requires forall other :: Admission.Inflight(bumped, other) == Admission.Inflight(counters, other) + if other == key then 1 else 0
    ensures Admission.Total(bumped, keys) == Admission.Total(counters, keys) + 1
    decreases keys
  {
    Admission.TotalPick(counters, keys, key);
    Admission.TotalPick(bumped, keys, key);
    TotalSame(counters, bumped, keys - {key});
  }

  lemma {:induction false} TotalSame(counters: map<string, nat>, others: map<string, nat>, keys: set<string>)
    requires forall key | key in keys :: Admission.Inflight(counters, key) == Admission.Inflight(others, key)
    ensures Admission.Total(counters, keys) == Admission.Total(others, keys)
    decreases keys
  {
    if keys != {} {
      var key :| key in keys && Admission.Total(counters, keys) == Admission.Inflight(counters, key) + Admission.Total(counters, keys - {key});
      Admission.TotalPick(others, keys, key);
      TotalSame(counters, others, keys - {key});
    }
  }

  lemma BeganCounted(rules: Rules, t: Tally, i: nat, a: nat, family: string)
    requires Counted(rules, t) && !Exhausted(rules, t) && !FamilyExhausted(rules, t, family)
    ensures Counted(rules, Began(t, i, a, family))
  {
    var t' := Began(t, i, a, family);
    forall other ensures Count(t'.families, other) == CountFamily(t'.starts, other)
                      && Count(t'.families, other) == Count(t.families, other) + if other == family then 1 else 0
    {
      CountFamilyAppend(t.starts, Start(i, a, family), other);
    }
    forall other ensures Admission.Inflight(t'.families, other) == Count(t'.families, other)
                      && Admission.Inflight(t.families, other) == Count(t.families, other) {}
    TotalBump(t.families, t'.families, family, t'.families.Keys);
    Admission.TotalExtra(t.families, t'.families.Keys);
  }

  /** An attempt changes the counted part of the tally only by starting. */
  predicate SameCounts(t: Tally, t': Tally) {
    t.started == t'.started && t.families == t'.families && t.starts == t'.starts
  }

  function Tries(rules: Rules, e: Entry, t: Tally, a: nat): bool {
    !Exhausted(rules, t) && !FamilyExhausted(rules, t, e.family) && e.attempt(a).Granted()
  }

  lemma OneAttemptStarts(rules: Rules, e: Entry, t: Tally, i: nat, a: nat)
    ensures SameCounts(OneAttempt(rules, e, t, i, a).tally, if Tries(rules, e, t, a) then Began(t, i, a, e.family) else t)
  {
    hide Exhausted, FamilyExhausted, FallbackEligible, IsOutputRejection, Suppression, Began;
  }

  /** Only an attempt before the last can ask for another one on the same entry. */
  lemma AgainIsEarlier(rules: Rules, e: Entry, t: Tally, i: nat, a: nat)
    ensures OneAttempt(rules, e, t, i, a).Again? ==> a < rules.Attempts()
  {}

  lemma OneAttemptCounted(rules: Rules, e: Entry, t: Tally, i: nat, a: nat)
    requires Counted(rules, t)
    ensures Counted(rules, OneAttempt(rules, e, t, i, a).tally)
  {
    OneAttemptStarts(rules, e, t, i, a);
    if Tries(rules, e, t, a) {
      BeganCounted(rules, t, i, a, e.family);
    }
    hide OneAttempt;
  }

  /** What every single attempt keeps, the whole run keeps. */
  lemma {:induction false} EntriesKeep(rules: Rules, chain: seq<Entry>, i: nat, t: Tally, kept: Tally -> bool)
    requires i <= |chain| && kept(t)
    requires forall e, t, i, a {:trigger OneAttempt(rules, e, t, i, a)} :: kept(t) ==> kept(OneAttempt(rules, e, t, i, a).tally)
    ensures kept(Entries(rules, chain, i, t).1)
    decreases |chain| - i, rules.Attempts() + 1
  {
    if i < |chain| {
      if !chain[i].available || !chain[i].adapter {
        EntriesKeep(rules, chain, i + 1, t, kept);
      } else {
        AttemptsKeep(rules, chain, i, 1, t, kept);
      }
    }
  }

  lemma {:induction false} AttemptsKeep(rules: Rules, chain: seq<Entry>, i: nat, a: nat, t: Tally, kept: Tally -> bool)
    requires i < |chain| && 1 <= a <= rules.Attempts() && kept(t)
    requires forall e, t, i, a {:trigger OneAttempt(rules, e, t, i, a)} :: kept(t) ==> kept(OneAttempt(rules, e, t, i, a).tally)
    ensures kept(Attempts(rules, chain, i, a, t).1)
    decreases |chain| - i, rules.Attempts() - a
  {
    AgainIsEarlier(rules, chain[i], t, i, a);
    hide OneAttempt;
    match OneAttempt(rules, chain[i], t, i, a)
    case Stop(_, _) =>
    case Again(t') => AttemptsKeep(rules, chain, i, a + 1, t', kept);
    case Move(t') => EntriesKeep(rules, chain, i + 1, t', kept);
  }

  /** Started attempts are the sum of the family attempts and both stay within their positive caps. */
  lemma AttemptCaps(rules: Rules, chain: seq<Entry>)
    ensures Counted(rules, Dispatch(rules, chain).1)
  {
    forall e: Entry, t: Tally, i: nat, a: nat | Counted(rules, t) ensures Counted(rules, OneAttempt(rules, e, t, i, a).tally) {
      OneAttemptCounted(rules, e, t, i, a);
    }
    hide OneAttempt;
    EntriesKeep(rules, chain, 0, FRESH, (t: Tally) => Counted(rules, t));
  }

  // ---------------------------------------------------------------- leases and handles are bracketed

  datatype Hold =
    | Free
    | LeaseHeld(entry: nat, attempt: nat)
    | HandleHeld(entry: nat, attempt: nat)
    | HandleGone(entry: nat, attempt: nat)
    | Broken

  function Moved(hold: Hold, event: Event): Hold {
    match event
    case Leased(i, a) => if hold == Free then LeaseHeld(i, a) else Broken
    case Started(i, a) => if hold == LeaseHeld(i, a) then HandleHeld(i, a) else Broken
    case Suppressed(i, _) => if hold.Free? || ((hold.LeaseHeld? || hold.HandleHeld?) && hold.entry == i) then hold else Broken
    case Cleaned(i, a) => if hold == HandleHeld(i, a) then HandleGone(i, a) else Broken
    case Released(i, a) => if hold == LeaseHeld(i, a) || hold == HandleGone(i, a) then Free else Broken
  }

  function Track(trace: seq<Event>): Hold {
    if trace == [] then Free else Moved(Track(trace[..|trace| - 1]), trace[|trace| - 1])
  }

  lemma TrackAppend(trace: seq<Event>, event: Event)
    ensures Track(trace + [event]) == Moved(Track(trace), event)
  {
    assert (trace + [event])[..|trace|] == trace;
  }

  lemma JudgeTracks(rules: Rules, t: Tally, i: nat, a: nat, problem: Problem)
    requires Track(t.trace) in {Free, LeaseHeld(i, a), HandleHeld(i, a)}
    ensures Track(Judge(rules, t, i, a, problem).tally.trace) == Track(t.trace)
  {
    var emitted := Suppression(problem, i);
    if emitted == [] {
      assert t.trace + emitted == t.trace;
    } else {
      TrackAppend(t.trace, emitted[0]);
    }
    hide Moved;
  }

  lemma ClosedTracks(t: Tally, i: nat, a: nat, handle: bool)
    requires Track(t.trace) == if handle then HandleHeld(i, a) else LeaseHeld(i, a)
    ensures Track(Closed(t, i, a, handle).trace) == Free
  {
    if handle {
      TrackAppend(t.trace, Cleaned(i, a));
      TrackAppend(t.trace + [Cleaned(i, a)], Released(i, a));
    } else {
      assert t.trace + [] == t.trace;
      TrackAppend(t.trace, Released(i, a));
    }
  }

  /** The attempt's cleanup raises. */
  predicate CleanupRaises(met: Attempt) { met.Ran? && !met.cleans }

  lemma GrantedTracks(rules: Rules, b: Tally, i: nat, a: nat, met: Attempt)
    requires Track(b.trace) == LeaseHeld(i, a) && met.Granted()
    ensures Track(LeasedNext(rules, b, i, a, met).tally.trace) == if CleanupRaises(met) then HandleHeld(i, a) else Free
  {
    hide Track;
    match met
    case NotStarted(problem) =>
      JudgeTracks(rules, b, i, a, problem);
      ClosedTracks(Judge(rules, b, i, a, problem).tally, i, a, false);
    case Ran(outcome, cleans) =>
      TrackAppend(b.trace, Started(i, a));
      var r := b.(trace := b.trace + [Started(i, a)]);
      var t := if outcome.Ok? then r else Judge(rules, r, i, a, outcome.error).tally;
      if outcome.Err? {
        JudgeTracks(rules, r, i, a, outcome.error);
      }
      hide Judge;
      if cleans {
        ClosedTracks(t, i, a, true);
      }
  }

  lemma OneAttemptTracks(rules: Rules, e: Entry, t: Tally, i: nat, a: nat)
    requires Track(t.trace) == Free
    ensures var next, raises := OneAttempt(rules, e, t, i, a), Tries(rules, e, t, a) && CleanupRaises(e.attempt(a));
      && Track(next.tally.trace) == (if raises then HandleHeld(i, a) else Free)
      && (raises ==> next.Stop?)
  {
    if Tries(rules, e, t, a) {
      TrackAppend(t.trace, Leased(i, a));
      GrantedTracks(rules, Began(t, i, a, e.family), i, a, e.attempt(a));
    } else if e.attempt(a).AskFailed? {
      JudgeTracks(rules, t, i, a, AskProblem(e.attempt(a).timedOut));
    }
    hide Track, Judge;
  }

  ghost predicate AllClean(chain: seq<Entry>, starts: seq<Start>) {
    forall k | 0 <= k < |starts| :: starts[k].entry < |chain| && !CleanupRaises(chain[starts[k].entry].attempt(starts[k].attempt))
  }

  /** Every lease bracket is closed if and only if no attempt made had a raising cleanup; such an attempt is the
      last one, and its lease and handle are all that is left. */
  ghost predicate Bracketed(chain: seq<Entry>, t: Tally) {
    && (forall k | 0 <= k < |t.starts| :: t.starts[k].entry < |chain|)
    && (Track(t.trace) == Free <==> AllClean(chain, t.starts))
    && (!AllClean(chain, t.starts) ==>
          && t.starts != [] && AllClean(chain, t.starts[..|t.starts| - 1])
          && var s := t.starts[|t.starts| - 1]; Track(t.trace) == HandleHeld(s.entry, s.attempt))
  }

  lemma AttemptBracketed(rules: Rules, chain: seq<Entry>, i: nat, a: nat, t: Tally)
    requires i < |chain| && Track(t.trace) == Free && AllClean(chain, t.starts)
    ensures var next := OneAttempt(rules, chain[i], t, i, a);
      Bracketed(chain, next.tally) && (!next.Stop? ==> Track(next.tally.trace) == Free && AllClean(chain, next.tally.starts))
  {
    OneAttemptTracks(rules, chain[i], t, i, a);
    OneAttemptStarts(rules, chain[i], t, i, a);
    hide OneAttempt, Track, CleanupRaises;
    if Tries(rules, chain[i], t, a) {
      var starts := t.starts + [Start(i, a, chain[i].family)];
      assert starts[..|starts| - 1] == t.starts;
      assert forall k | 0 <= k < |t.starts| :: starts[k] == t.starts[k];
      assert starts[|t.starts|] == Start(i, a, chain[i].family);
    }
  }

  lemma {:induction false} EntriesBracketed(rules: Rules, chain: seq<Entry>, i: nat, t: Tally)
    requires i <= |chain| && Track(t.trace) == Free && AllClean(chain, t.starts)
    ensures Bracketed(chain, Entries(rules, chain, i, t).1)
    decreases |chain| - i, rules.Attempts() + 1
  {
    hide Track, AllClean;
    if i < |chain| {
      if !chain[i].available || !chain[i].adapter {
        EntriesBracketed(rules, chain, i + 1, t);
      } else {
        AttemptsBracketed(rules, chain, i, 1, t);
      }
    } else {
      assert Bracketed(chain, t) by { CleanIsBracketed(chain, t); }
    }
  }

  lemma CleanIsBracketed(chain: seq<Entry>, t: Tally)
    requires Track(t.trace) == Free && AllClean(chain, t.starts)
    ensures Bracketed(chain, t)
  {}

  lemma {:induction false} AttemptsBracketed(rules: Rules, chain: seq<Entry>, i: nat, a: nat, t: Tally)
    requires i < |chain| && 1 <= a <= rules.Attempts() && Track(t.trace) == Free && AllClean(chain, t.starts)
    ensures Bracketed(chain, Attempts(rules, chain, i, a, t).1)
    decreases |chain| - i, rules.Attempts() - a
  {
    AttemptBracketed(rules, chain, i, a, t);
    AgainIsEarlier(rules, chain[i], t, i, a);
    hide OneAttempt, Track, AllClean, Bracketed;
    match OneAttempt(rules, chain[i], t, i, a)
    case Stop(_, _) =>
    case Again(t') => AttemptsBracketed(rules, chain, i, a + 1, t');
    case Move(t') => EntriesBracketed(rules, chain, i + 1, t');
  }

  /** On every exit path, exceptions from the `except` clauses included: each handle is started inside a lease,
      cleaned, and only then the lease is released; and nothing is held when the dispatch ends if and only if the
      cleanup of no attempt made raised. (`Broken` is absorbing, so this constrains every prefix of the history.) */
  lemma EveryHandleCleanedEveryLeaseReleased(rules: Rules, chain: seq<Entry>)
    ensures Bracketed(chain, Dispatch(rules, chain).1)
  {
    EntriesBracketed(rules, chain, 0, FRESH);
  }

  /** A raising cleanup turns a success into an escaping exception and keeps the lease. */
  lemma RaisingCleanupKeepsLease(rules: Rules, family: string, output: Output)
    ensures var chain := [Entry(true, true, family, (_) => Ran(Ok(output), false))];
      && Dispatch(rules, chain).0 == Escaped
      && Track(Dispatch(rules, chain).1.trace) == HandleHeld(0, 1)
  {
    var chain := [Entry(true, true, family, (_) => Ran(Ok(output), false))];
    OneAttemptTracks(rules, chain[0], FRESH, 0, 1);
    assert Dispatch(rules, chain) == Attempts(rules, chain, 0, 1, FRESH);
  }

  // ---------------------------------------------------------------- which attempts are made

  predicate Before(s: Start, i: nat, a: nat) {
    s.entry < i || (s.entry == i && s.attempt < a)
  }

  predicate AllBefore(starts: seq<Start>, i: nat, a: nat) {
    forall k | 0 <= k < |starts| :: Before(starts[k], i, a)
  }

  /** The starts made before position (i, a) of the chain. */
  function Earlier(starts: seq<Start>, i: nat, a: nat): seq<Start> {
    if starts == [] || Before(starts[|starts| - 1], i, a) then starts else Earlier(starts[..|starts| - 1], i, a)
  }

  predicate Succeeds(met: Attempt) {
    met.Ran? && met.outcome.Ok? && met.cleans
  }

  /** An exception other than a `TupleError` leaves the attempt. */
  predicate Escapes(met: Attempt) {
    || CleanupRaises(met)
    || (met.NotStarted? && met.problem.Escaping?)
    || (met.Ran? && met.outcome.Err? && met.outcome.error.Escaping?)
  }

  predicate FailsFinally(met: Attempt) {
    && ((met.NotStarted? && met.problem.Reported?) || (met.Ran? && met.cleans && met.outcome.Err? && met.outcome.error.Reported?))
    && var e := if met.NotStarted? then met.problem.error else met.outcome.error.error;
       e.code == OutputTruncated || (!IsOutputRejection(e.code) && !FallbackEligible(e))
  }

  /** A success, a truncated output, an error that is not fallback-eligible or an escaping exception ends the run. */
  predicate EndsRun(met: Attempt) {
    Succeeds(met) || FailsFinally(met) || Escapes(met)
  }

  /** An empty or malformed output is retried on the same entry, unless strict schema output switches entry. */
  predicate Retries(rules: Rules, a: nat, met: Attempt) {
    && ((met.NotStarted? && met.problem.Reported?) || (met.Ran? && met.cleans && met.outcome.Err? && met.outcome.error.Reported?))
    && a < rules.Attempts()
    && var e := if met.NotStarted? then met.problem.error else met.outcome.error.error;
       e.code == EmptyOutput || (e.code == MalformedOutput && !rules.strictSchema)
  }

  predicate Capped(rules: Rules, e: Entry, before: seq<Start>) {
    || (rules.maxAttempts > 0 && |before| >= rules.maxAttempts)
    || (rules.maxFamilyAttempts > 0 && CountFamily(before, e.family) >= rules.maxFamilyAttempts)
  }

  predicate Ended(chain: seq<Entry>, before: seq<Start>) {
    before != [] && var s := before[|before| - 1]; s.entry < |chain| && EndsRun(chain[s.entry].attempt(s.attempt))
  }

  /** The reference answer: is attempt `a` on entry `i` made, judging only by the attempts made before it? */
  predicate Reached(rules: Rules, chain: seq<Entry>, starts: seq<Start>, i: nat, a: nat)
    requires i < |chain| && a >= 1
  {
    var e := chain[i];
    if a == 1 then e.available && e.adapter && !Ended(chain, Earlier(starts, i, 1))
    else Start(i, a - 1, e.family) in starts && Retries(rules, a - 1, e.attempt(a - 1))
  }

  predicate Explained(rules: Rules, chain: seq<Entry>, starts: seq<Start>, i: nat, a: nat)
    requires i < |chain| && a >= 1
  {
    Start(i, a, chain[i].family) in starts <==>
      && Reached(rules, chain, starts, i, a)
      && !Capped(rules, chain[i], Earlier(starts, i, a))
      && chain[i].attempt(a).Granted()
  }

  /** `later` extends `earlier` only with starts at or after position (i, a). */
  predicate Grown(earlier: seq<Start>, later: seq<Start>, i: nat, a: nat) {
    && earlier <= later
    && forall k | |earlier| <= k < |later| :: !Before(later[k], i, a)
  }

  lemma {:induction false} EarlierIs(earlier: seq<Start>, later: seq<Start>, i: nat, a: nat)
    requires Grown(earlier, later, i, a) && AllBefore(earlier, i, a)
    ensures Earlier(later, i, a) == earlier
    decreases |later|
  {
    if |later| > |earlier| {
      EarlierIs(earlier, later[..|later| - 1], i, a);
    }
  }

  lemma OneAttemptGrows(rules: Rules, e: Entry, t: Tally, i: nat, a: nat)
    requires AllBefore(t.starts, i, a)
    ensures var t' := OneAttempt(rules, e, t, i, a).tally;
      && Grown(t.starts, t'.starts, i, a) && AllBefore(t'.starts, i, a + 1)
      && t'.starts == if Tries(rules, e, t, a) then t.starts + [Start(i, a, e.family)] else t.starts
  {
    OneAttemptStarts(rules, e, t, i, a);
    hide OneAttempt;
  }

  lemma {:induction false} EntriesGrow(rules: Rules, chain: seq<Entry>, i: nat, t: Tally)
    requires i <= |chain| && AllBefore(t.starts, i, 1)
    ensures Grown(t.starts, Entries(rules, chain, i, t).1.starts, i, 1)
    ensures AllBefore(Entries(rules, chain, i, t).1.starts, |chain|, 1)
    decreases |chain| - i, rules.Attempts() + 1
  {
    if i < |chain| {
      if !chain[i].available || !chain[i].adapter {
        EntriesGrow(rules, chain, i + 1, t);
      } else {
        AttemptsGrow(rules, chain, i, 1, t);
      }
    }
  }

  lemma {:induction false} AttemptsGrow(rules: Rules, chain: seq<Entry>, i: nat, a: nat, t: Tally)
    requires i < |chain| && 1 <= a <= rules.Attempts() && AllBefore(t.starts, i, a)
    ensures Grown(t.starts, Attempts(rules, chain, i, a, t).1.starts, i, a)
    ensures AllBefore(Attempts(rules, chain, i, a, t).1.starts, |chain|, 1)
    decreases |chain| - i, rules.Attempts() - a
  {
    OneAttemptGrows(rules, chain[i], t, i, a);
    hide OneAttempt;
    match OneAttempt(rules, chain[i], t, i, a)
    case Stop(_, _) =>
    case Again(t') => AgainIsEarlier(rules, chain[i], t, i, a); AttemptsGrow(rules, chain, i, a + 1, t');
    case Move(t') => EntriesGrow(rules, chain, i + 1, t');
  }

  lemma OneAttemptKind(rules: Rules, e: Entry, t: Tally, i: nat, a: nat)
    requires a >= 1
    ensures var next := OneAttempt(rules, e, t, i, a);
      && (next.Stop? <==> Tries(rules, e, t, a) && EndsRun(e.attempt(a)))
      && (next.Again? <==> Tries(rules, e, t, a) && Retries(rules, a, e.attempt(a)))
      && (next.Stop? ==> (next.verdict.Returned? <==> Succeeds(e.attempt(a))))
      && (next.Stop? ==> !next.verdict.Interrupted?)
      && (next.Stop? ==> (next.verdict.Escaped? <==> Escapes(e.attempt(a))))
      && (next.Stop? && next.verdict.Returned? ==> e.attempt(a) == Ran(Ok(next.verdict.output), true))
  {}

  /** No entry after a finished run is explained as reached. */
  lemma RestUnreached(rules: Rules, chain: seq<Entry>, starts: seq<Start>, i: nat, a: nat, j: nat, b: nat)
    requires i < |chain| && a >= 1 && starts != [] && starts[|starts| - 1] == Start(i, a, chain[i].family)
    requires AllBefore(starts, i, a + 1) && EndsRun(chain[i].attempt(a))
    requires j < |chain| && b >= 1 && (j > i || (j == i && b > a))
    ensures Explained(rules, chain, starts, j, b)
  {
    assert forall k | 0 <= k < |starts| :: Before(starts[k], j, b);
    assert Earlier(starts, j, b) == starts;
  }

  lemma {:induction false} EntriesExplained(rules: Rules, chain: seq<Entry>, i: nat, t: Tally, j: nat, b: nat)
    requires i <= j < |chain| && b >= 1
    requires AllBefore(t.starts, i, 1) && Counted(rules, t) && !Ended(chain, t.starts)
    ensures Explained(rules, chain, Entries(rules, chain, i, t).1.starts, j, b)
    decreases |chain| - i, rules.Attempts() + 1
  {
    if !chain[i].available || !chain[i].adapter {
      if i < j {
        EntriesExplained(rules, chain, i + 1, t, j, b);
      } else {
        SkippedExplained(rules, chain, i, t, b);
      }
    } else {
      AttemptsExplained(rules, chain, i, 1, t, j, b);
    }
  }

  lemma SkippedExplained(rules: Rules, chain: seq<Entry>, i: nat, t: Tally, b: nat)
    requires i < |chain| && b >= 1 && AllBefore(t.starts, i, 1)
    requires !chain[i].available || !chain[i].adapter
    ensures Explained(rules, chain, Entries(rules, chain, i, t).1.starts, i, b)
  {
    EntriesGrow(rules, chain, i + 1, t);
    var s := Entries(rules, chain, i + 1, t).1.starts;
    assert forall k | 0 <= k < |s| :: s[k].entry == i ==> k < |t.starts| && Before(t.starts[k], i, 1);
  }

  /** What holds again after an attempt that does not end the run. */
  lemma AfterAttempt(rules: Rules, chain: seq<Entry>, i: nat, a: nat, t: Tally)
    requires i < |chain| && a >= 1
    requires AllBefore(t.starts, i, a) && Counted(rules, t) && !Ended(chain, t.starts)
    ensures var next := OneAttempt(rules, chain[i], t, i, a);
      && Counted(rules, next.tally)
      && AllBefore(next.tally.starts, i, a + 1) && AllBefore(next.tally.starts, i + 1, 1)
      && (!next.Stop? ==> !Ended(chain, next.tally.starts))
      && (next.Again? ==> Start(i, a, chain[i].family) in next.tally.starts && Retries(rules, a, chain[i].attempt(a)))
  {
    var t' := OneAttempt(rules, chain[i], t, i, a).tally;
    OneAttemptGrows(rules, chain[i], t, i, a);
    OneAttemptKind(rules, chain[i], t, i, a);
    OneAttemptCounted(rules, chain[i], t, i, a);
    hide OneAttempt, Counted;
    if Tries(rules, chain[i], t, a) {
      assert t'.starts[|t.starts|] == Start(i, a, chain[i].family);
    }
  }

  lemma {:induction false} AttemptsExplained(rules: Rules, chain: seq<Entry>, i: nat, a: nat, t: Tally, j: nat, b: nat)
    requires i < |chain| && 1 <= a <= rules.Attempts() && j < |chain| && b >= 1
    requires i < j || (i == j && a <= b)
    requires AllBefore(t.starts, i, a) && Counted(rules, t) && !Ended(chain, t.starts)
    requires chain[i].available && chain[i].adapter
    requires a > 1 ==> Start(i, a - 1, chain[i].family) in t.starts && Retries(rules, a - 1, chain[i].attempt(a - 1))
    ensures Explained(rules, chain, Attempts(rules, chain, i, a, t).1.starts, j, b)
    decreases |chain| - i, rules.Attempts() - a
  {
    if i == j && a == b {
      AttemptHere(rules, chain, i, a, t);
    } else {
      AfterAttempt(rules, chain, i, a, t);
      AgainIsEarlier(rules, chain[i], t, i, a);
      var next := OneAttempt(rules, chain[i], t, i, a);
      if next.Stop? {
        StoppedExplained(rules, chain, i, a, t, j, b);
      } else if next.Again? {
        hide OneAttempt, Counted, AllBefore, Explained, Ended;
        AttemptsExplained(rules, chain, i, a + 1, next.tally, j, b);
      } else if i < j {
        hide OneAttempt, Counted, AllBefore, Explained, Ended;
        EntriesExplained(rules, chain, i + 1, next.tally, j, b);
      } else {
        hide OneAttempt, Counted, Explained;
        LeftExplained(rules, chain, i, a, t, b);
      }
    }
  }

  lemma StoppedExplained(rules: Rules, chain: seq<Entry>, i: nat, a: nat, t: Tally, j: nat, b: nat)
    requires i < |chain| && 1 <= a <= rules.Attempts() && AllBefore(t.starts, i, a)
    requires OneAttempt(rules, chain[i], t, i, a).Stop?
    requires j < |chain| && b >= 1 && (j > i || (j == i && b > a))
    ensures Explained(rules, chain, Attempts(rules, chain, i, a, t).1.starts, j, b)
  {
    OneAttemptGrows(rules, chain[i], t, i, a);
    OneAttemptKind(rules, chain[i], t, i, a);
    hide OneAttempt, Explained;
    RestUnreached(rules, chain, Attempts(rules, chain, i, a, t).1.starts, i, a, j, b);
  }

  /** The attempt at hand is made exactly when the caps and admission allow it. */
  lemma AttemptHere(rules: Rules, chain: seq<Entry>, i: nat, a: nat, t: Tally)
    requires i < |chain| && 1 <= a <= rules.Attempts()
    requires AllBefore(t.starts, i, a) && Counted(rules, t) && !Ended(chain, t.starts)
    requires chain[i].available && chain[i].adapter
    requires a > 1 ==> Start(i, a - 1, chain[i].family) in t.starts && Retries(rules, a - 1, chain[i].attempt(a - 1))
    ensures Explained(rules, chain, Attempts(rules, chain, i, a, t).1.starts, i, a)
  {
    var e, s := chain[i], Attempts(rules, chain, i, a, t).1.starts;
    AttemptsGrow(rules, chain, i, a, t);
    EarlierIs(t.starts, s, i, a);
    StartedHere(rules, chain, i, a, t);
    assert Capped(rules, e, t.starts) <==> Exhausted(rules, t) || FamilyExhausted(rules, t, e.family);
    if a > 1 {
      var k :| 0 <= k < |t.starts| && t.starts[k] == Start(i, a - 1, e.family);
      assert s[k] == t.starts[k];
    }
  }

  lemma StartedHere(rules: Rules, chain: seq<Entry>, i: nat, a: nat, t: Tally)
    requires i < |chain| && 1 <= a <= rules.Attempts() && AllBefore(t.starts, i, a)
    ensures Start(i, a, chain[i].family) in Attempts(rules, chain, i, a, t).1.starts <==> Tries(rules, chain[i], t, a)
    ensures forall c: nat | c > a && !OneAttempt(rules, chain[i], t, i, a).Again? ::
              Start(i, c, chain[i].family) !in Attempts(rules, chain, i, a, t).1.starts
  {
    var e, next := chain[i], OneAttempt(rules, chain[i], t, i, a);
    var s := Attempts(rules, chain, i, a, t).1.starts;
    OneAttemptGrows(rules, e, t, i, a);
    hide OneAttempt;
    if !next.Stop? {
      if next.Again? && a < rules.Attempts() {
        AttemptsGrow(rules, chain, i, a + 1, next.tally);
      } else {
        EntriesGrow(rules, chain, i + 1, next.tally);
      }
    }
    assert next.tally.starts <= s;
    forall k | 0 <= k < |s| ensures s[k].entry == i && s[k].attempt == a ==> k < |next.tally.starts| {}
    if Tries(rules, e, t, a) {
      assert s[|t.starts|] == Start(i, a, e.family);
    }
  }

  /** Attempts after the one that left the entry are not made, and the reference agrees. */
  lemma LeftExplained(rules: Rules, chain: seq<Entry>, i: nat, a: nat, t: Tally, b: nat)
    requires i < |chain| && 1 <= a <= rules.Attempts() && a < b && AllBefore(t.starts, i, a)
    requires !OneAttempt(rules, chain[i], t, i, a).Again?
    ensures Explained(rules, chain, Attempts(rules, chain, i, a, t).1.starts, i, b)
  {
    StartedHere(rules, chain, i, a, t);
    OneAttemptKind(rules, chain[i], t, i, a);
    hide OneAttempt;
  }

  /** The fallback specification, both ways: over every chain and script, attempt `a` on entry `i` is made
      if and only if it was reached (entry usable and the run not ended, or the previous attempt asks for a
      retry), no cap was used up by the attempts made before it, and admission granted it. */
  lemma AttemptsMadeExactly(rules: Rules, chain: seq<Entry>, i: nat, a: nat)
    requires i < |chain| && a >= 1
    ensures Explained(rules, chain, Dispatch(rules, chain).1.starts, i, a)
  {
    EntriesExplained(rules, chain, 0, FRESH, i, a);
  }

  // ---------------------------------------------------------------- what the run ends with

  /** All attempts but the last let the run go on; the last one decides a success or a final failure. */
  ghost predicate Decided(rules: Rules, chain: seq<Entry>, verdict: Verdict, starts: seq<Start>) {
    && (forall k | 0 <= k < |starts| :: starts[k].entry < |chain|)
    && (forall k | 0 <= k < |starts| - 1 :: !EndsRun(chain[starts[k].entry].attempt(starts[k].attempt)))
    && (match verdict
        case Returned(output) => |starts| > 0 && chain[starts[|starts| - 1].entry].attempt(starts[|starts| - 1].attempt) == Ran(Ok(output), true)
        case Raised(_) =>
          |starts| > 0 ==>
            var met := chain[starts[|starts| - 1].entry].attempt(starts[|starts| - 1].attempt); !Succeeds(met) && !Escapes(met)
        case Escaped => |starts| > 0 && Escapes(chain[starts[|starts| - 1].entry].attempt(starts[|starts| - 1].attempt))
        case Interrupted => false)
  }

  ghost predicate NoneEnded(chain: seq<Entry>, starts: seq<Start>) {
    forall k | 0 <= k < |starts| :: starts[k].entry < |chain| && !EndsRun(chain[starts[k].entry].attempt(starts[k].attempt))
  }

  lemma {:induction false} EntriesDecide(rules: Rules, chain: seq<Entry>, i: nat, t: Tally)
    requires i <= |chain| && AllBefore(t.starts, i, 1) && NoneEnded(chain, t.starts)
    ensures var (v, t') := Entries(rules, chain, i, t); Decided(rules, chain, v, t'.starts)
    decreases |chain| - i, rules.Attempts() + 1
  {
    if i < |chain| {
      if !chain[i].available || !chain[i].adapter {
        EntriesDecide(rules, chain, i + 1, t);
      } else {
        AttemptsDecide(rules, chain, i, 1, t);
      }
    }
  }

  lemma {:induction false} AttemptsDecide(rules: Rules, chain: seq<Entry>, i: nat, a: nat, t: Tally)
    requires i < |chain| && 1 <= a <= rules.Attempts() && AllBefore(t.starts, i, a) && NoneEnded(chain, t.starts)
    ensures var (v, t') := Attempts(rules, chain, i, a, t); Decided(rules, chain, v, t'.starts)
    decreases |chain| - i, rules.Attempts() - a
  {
    OneAttemptGrows(rules, chain[i], t, i, a);
    OneAttemptKind(rules, chain[i], t, i, a);
    hide OneAttempt;
    match OneAttempt(rules, chain[i], t, i, a)
    case Stop(_, _) =>
    case Again(t') => AttemptsDecide(rules, chain, i, a + 1, t');
    case Move(t') => EntriesDecide(rules, chain, i + 1, t');
  }

  /** A dispatch returns the output of its last attempt exactly when that attempt succeeded, and ends in an escaping
      exception exactly when that attempt did; a success, a truncated output, an error that is not
      fallback-eligible or an escaping exception is never followed by another start. */
  lemma LastAttemptDecides(rules: Rules, chain: seq<Entry>)
    ensures var (verdict, t) := Dispatch(rules, chain); Decided(rules, chain, verdict, t.starts)
  {
    EntriesDecide(rules, chain, 0, FRESH);
  }
}
