/** Which error a failed dispatch raises, and which tuples it blacks out, as functions of its script. */
module FallbackErrors {
  import opened Wrappers
  import opened ProviderErrors
  import opened Fallback
  import opened FallbackProperties

  /** The fallback table: a provider's error lets the dispatch go on whatever its own flag says, unless the provider
      cancelled or a quota is used up; any other error goes by its flag. A family is blacked out for what is wrong
      with the provider's whole surface or the account. */
  lemma FallbackTable(retryable: bool, status: nat, code: ErrorCode)
    ensures var e := TupleError(code, retryable, status);
      && (code.Provider? ==> (FallbackEligible(e) <==> code.provider != ProviderCancelled && code.provider != QuotaExceeded))
      && (!code.Provider? ==> (FallbackEligible(e) <==> retryable))
      && (SuppressesFamily(code) <==>
            code.Provider? && (code.provider.Maintenance? || code.provider.UpstreamUnavailable?
                               || code.provider.RateLimited? || code.provider.QuotaExceeded?))
      && (IsOutputRejection(code) <==> code.EmptyOutput? || code.MalformedOutput? || code.OutputTruncated?)
  {}

  /** The final form of an output rejection keeps its code and is a client error nobody retries. */
  lemma FinalForm(e: TupleError)
    ensures Final(e).code == e.code && !Final(e).retryable && Final(e).status == 422
  {}

  /** A plan that asks for no output validation still makes one attempt per entry. */
  lemma AtLeastOneAttempt(rules: Rules)
    ensures 1 <= rules.Attempts() && rules.attempts <= rules.Attempts() && (rules.Attempts() == 1 || rules.Attempts() == rules.attempts)
  {}

  /** What stopped a granted attempt, if anything did. */
  function ProblemOf(met: Attempt): Option<Problem> {
    match met
    case NotStarted(problem) => Some(problem)
    case Ran(outcome, _) => if outcome.Err? then Some(outcome.error) else None
    case _ => None
  }

  /** The error an attempt that failed is reported with: an output rejection in its final form unless the same
      entry is tried again, a timeout or an unexpected exception as the gateway's own error. */
  function ErrorOf(rules: Rules, a: nat, met: Attempt): Option<TupleError> {
    match ProblemOf(met)
    case None => None
    case Some(TimedOut) => Some(TIMEOUT_ERROR)
    case Some(Unexpected) => Some(UNEXPECTED_ERROR)
    case Some(Escaping(_)) => None
    case Some(Reported(e)) =>
      Some(if e.code in {EmptyOutput, MalformedOutput, OutputTruncated} && !Retries(rules, a, met) then Final(e) else e)
  }

  /** The error of the step at attempt `a` of entry `i`, judged only by the attempts made before it: none if the
      step is not reached, succeeds, escapes or finds the dispatch's own cap used up; a capacity error if the
      family's cap is used up or admission refuses. */
  function StepError(rules: Rules, chain: seq<Entry>, starts: seq<Start>, i: nat, a: nat): Option<TupleError>
    requires i < |chain| && a >= 1
  {
    var e, before := chain[i], Earlier(starts, i, a);
    var met := e.attempt(a);
    if !Reached(rules, chain, starts, i, a) then None
    else if rules.maxAttempts > 0 && |before| >= rules.maxAttempts then None
    else if rules.maxFamilyAttempts > 0 && CountFamily(before, e.family) >= rules.maxFamilyAttempts then Some(CAPACITY_ERROR)
    else if met.Denied? then Some(CAPACITY_ERROR)
    else if met.AskFailed? then Some(if met.timedOut then TIMEOUT_ERROR else UNEXPECTED_ERROR)
    else ErrorOf(rules, a, met)
  }

  predicate Position(chain: seq<Entry>, i: nat, a: nat) { i < |chain| && a >= 1 }

  predicate Precedes(j: nat, b: nat, i: nat, a: nat) { j < i || (j == i && b < a) }

  /** `error` is that of the last failing step before position (i, a), or there is none. */
  ghost predicate LastFailure(rules: Rules, chain: seq<Entry>, starts: seq<Start>, i: nat, a: nat, error: Option<TupleError>) {
    if error.None? then
      forall j: nat, b: nat | Position(chain, j, b) && Precedes(j, b, i, a) :: StepError(rules, chain, starts, j, b).None?
    else
      exists j: nat, b: nat ::
        && Position(chain, j, b) && Precedes(j, b, i, a) && StepError(rules, chain, starts, j, b) == error
        && forall k: nat, c: nat | Position(chain, k, c) && Precedes(k, c, i, a) && Precedes(j, b, k, c) ::
             StepError(rules, chain, starts, k, c).None?
  }

  // ---------------------------------------------------------------- a step's error does not change later

  lemma {:induction false} EarlierStable(earlier: seq<Start>, later: seq<Start>, i: nat, a: nat, j: nat, b: nat)
    requires Grown(earlier, later, i, a) && (Precedes(j, b, i, a) || (j == i && b == a))
    ensures Earlier(later, j, b) == Earlier(earlier, j, b)
    decreases |later|
  {
    if |later| > |earlier| {
      var n := |later| - 1;
      assert !Before(later[n], i, a);
      assert earlier <= later[..n];
      EarlierStable(earlier, later[..n], i, a, j, b);
    } else {
      assert later == earlier;
    }
  }

  lemma SameMembership(earlier: seq<Start>, later: seq<Start>, i: nat, a: nat, s: Start)
    requires Grown(earlier, later, i, a) && Before(s, i, a)
    ensures s in later <==> s in earlier
  {
    assert forall k | 0 <= k < |earlier| :: later[k] == earlier[k];
  }

  lemma StepErrorStable(rules: Rules, chain: seq<Entry>, earlier: seq<Start>, later: seq<Start>, i: nat, a: nat, j: nat, b: nat)
    requires Grown(earlier, later, i, a) && Position(chain, j, b) && Precedes(j, b, i, a)
    ensures StepError(rules, chain, later, j, b) == StepError(rules, chain, earlier, j, b)
  {
    EarlierStable(earlier, later, i, a, j, b);
    if b > 1 {
      SameMembership(earlier, later, i, a, Start(j, b - 1, chain[j].family));
    } else {
      EarlierStable(earlier, later, i, a, j, 1);
    }
    hide Earlier, Ended, Retries, ErrorOf;
  }

  lemma LastFailureStable(rules: Rules, chain: seq<Entry>, earlier: seq<Start>, later: seq<Start>, i: nat, a: nat, error: Option<TupleError>)
    requires Grown(earlier, later, i, a) && LastFailure(rules, chain, earlier, i, a, error)
    ensures LastFailure(rules, chain, later, i, a, error)
  {
    forall j: nat, b: nat | Position(chain, j, b) && Precedes(j, b, i, a)
      ensures StepError(rules, chain, later, j, b) == StepError(rules, chain, earlier, j, b)
    {
      StepErrorStable(rules, chain, earlier, later, i, a, j, b);
    }
    hide StepError;
  }

  // ---------------------------------------------------------------- one step

  /** The next position is (i', a'); every position in between fails nowhere. */
  lemma Advanced(rules: Rules, chain: seq<Entry>, starts: seq<Start>, i: nat, a: nat, i': nat, a': nat,
                 before: Option<TupleError>, after: Option<TupleError>)
    requires Position(chain, i, a) && Precedes(i, a, i', a') && LastFailure(rules, chain, starts, i, a, before)
    requires after == if StepError(rules, chain, starts, i, a).Some? then StepError(rules, chain, starts, i, a) else before
    requires forall k: nat, c: nat | Position(chain, k, c) && Precedes(i, a, k, c) && Precedes(k, c, i', a') :: StepError(rules, chain, starts, k, c).None?
    ensures LastFailure(rules, chain, starts, i', a', after)
  {
    hide StepError;
    if StepError(rules, chain, starts, i, a).Some? {
      assert Position(chain, i, a) && Precedes(i, a, i', a') && StepError(rules, chain, starts, i, a) == after;
    } else if before.Some? {
      var j: nat, b: nat :| Position(chain, j, b) && Precedes(j, b, i, a) && StepError(rules, chain, starts, j, b) == before
        && forall k: nat, c: nat | Position(chain, k, c) && Precedes(k, c, i, a) && Precedes(j, b, k, c) :: StepError(rules, chain, starts, k, c).None?;
      forall k: nat, c: nat | Position(chain, k, c) && Precedes(k, c, i', a') && Precedes(j, b, k, c)
        ensures StepError(rules, chain, starts, k, c).None?
      {
        assert Precedes(k, c, i, a) || (k == i && c == a) || Precedes(i, a, k, c);
      }
    }
  }

  /** What the induction knows at the head of attempt `a` on entry `i`. */
  ghost predicate AtAttempt(rules: Rules, chain: seq<Entry>, i: nat, a: nat, t: Tally) {
    && i < |chain| && 1 <= a <= rules.Attempts()
    && AllBefore(t.starts, i, a) && Counted(rules, t) && !Ended(chain, t.starts)
    && chain[i].available && chain[i].adapter
    && (a > 1 ==> Start(i, a - 1, chain[i].family) in t.starts && Retries(rules, a - 1, chain[i].attempt(a - 1)))
  }

  lemma ReachedHere(rules: Rules, chain: seq<Entry>, i: nat, a: nat, t: Tally)
    requires AtAttempt(rules, chain, i, a, t)
    ensures var starts := OneAttempt(rules, chain[i], t, i, a).tally.starts;
      Earlier(starts, i, a) == t.starts && Reached(rules, chain, starts, i, a)
  {
    var starts := OneAttempt(rules, chain[i], t, i, a).tally.starts;
    OneAttemptGrows(rules, chain[i], t, i, a);
    EarlierIs(t.starts, starts, i, a);
    hide OneAttempt, Counted;
    if a > 1 {
      SameMembership(t.starts, starts, i, a, Start(i, a - 1, chain[i].family));
    }
  }

  /** A judged problem records, and raises if it raises, exactly the error of its attempt. */
  lemma JudgedError(rules: Rules, t: Tally, i: nat, a: nat, met: Attempt)
    requires met.Granted() && ProblemOf(met).Some? && a >= 1 && (met.Ran? ==> met.cleans)
    ensures var next, e := Judge(rules, t, i, a, ProblemOf(met).value), ErrorOf(rules, a, met);
      && (!next.Stop? || next.verdict.Raised? ==> next.tally.last == e && e.Some?)
      && (next.Stop? && next.verdict.Raised? ==> Some(next.verdict.error) == e)
  {
    hide Suppression, FallbackEligible;
  }

  /** One attempt records the error of its step if it has one, and raises none but that. */
  lemma StepHere(rules: Rules, chain: seq<Entry>, i: nat, a: nat, t: Tally)
    requires AtAttempt(rules, chain, i, a, t)
    ensures var next := OneAttempt(rules, chain[i], t, i, a);
            var e := StepError(rules, chain, next.tally.starts, i, a);
      && (next.Stop? && next.verdict.Raised? ==> e == Some(next.verdict.error))
      && (!next.Stop? ==> next.tally.last == if e.Some? then e else t.last)
  {
    ReachedHere(rules, chain, i, a, t);
    OneAttemptKind(rules, chain[i], t, i, a);
    var met := chain[i].attempt(a);
    assert Count(t.families, chain[i].family) == CountFamily(t.starts, chain[i].family) && t.started == |t.starts|;
    if Tries(rules, chain[i], t, a) && ProblemOf(met).Some? && (met.Ran? ==> met.cleans) {
      var b := Began(t, i, a, chain[i].family);
      JudgedError(rules, if met.Ran? then b.(trace := b.trace + [Started(i, a)]) else b, i, a, met);
    }
    hide Judge, Reached, Earlier, ErrorOf, EndsRun, Retries, Counted, Escapes;
  }

  // ---------------------------------------------------------------- steps that are not reached

  lemma NothingAfterLeaving(rules: Rules, chain: seq<Entry>, i: nat, a: nat, t: Tally, c: nat)
    requires AtAttempt(rules, chain, i, a, t) && c > a && !OneAttempt(rules, chain[i], t, i, a).Again?
    ensures StepError(rules, chain, OneAttempt(rules, chain[i], t, i, a).tally.starts, i, c).None?
  {
    OneAttemptGrows(rules, chain[i], t, i, a);
    OneAttemptKind(rules, chain[i], t, i, a);
    hide OneAttempt, Counted, ErrorOf, Ended;
  }

  lemma NothingAfterTheEnd(rules: Rules, chain: seq<Entry>, i: nat, a: nat, t: Tally, j: nat, c: nat)
    requires AtAttempt(rules, chain, i, a, t) && i < j < |chain| && c >= 1 && OneAttempt(rules, chain[i], t, i, a).Stop?
    ensures StepError(rules, chain, OneAttempt(rules, chain[i], t, i, a).tally.starts, j, c).None?
  {
    var starts := OneAttempt(rules, chain[i], t, i, a).tally.starts;
    OneAttemptGrows(rules, chain[i], t, i, a);
    OneAttemptKind(rules, chain[i], t, i, a);
    hide OneAttempt, Counted, ErrorOf;
    assert starts[|t.starts|] == Start(i, a, chain[i].family);
    assert Before(starts[|starts| - 1], j, c);
    assert Earlier(starts, j, c) == starts;
    hide EndsRun;
  }

  lemma NothingOnSkipped(rules: Rules, chain: seq<Entry>, i: nat, starts: seq<Start>, c: nat)
    requires i < |chain| && c >= 1 && AllBefore(starts, i, 1) && (!chain[i].available || !chain[i].adapter)
    ensures StepError(rules, chain, starts, i, c).None?
  {
    hide ErrorOf, Ended, Retries;
  }

  // ---------------------------------------------------------------- the whole run

  ghost predicate Raises(rules: Rules, chain: seq<Entry>, starts: seq<Start>, error: TupleError) {
    exists last :: LastFailure(rules, chain, starts, |chain|, 1, last) && error == if last.Some? then last.value else NO_ADAPTER_ERROR
  }

  lemma StopRaises(rules: Rules, chain: seq<Entry>, i: nat, a: nat, t: Tally)
    requires AtAttempt(rules, chain, i, a, t) && LastFailure(rules, chain, t.starts, i, a, t.last)
    requires var next := OneAttempt(rules, chain[i], t, i, a); next.Stop? && next.verdict.Raised?
    ensures var next := OneAttempt(rules, chain[i], t, i, a); Raises(rules, chain, next.tally.starts, next.verdict.error)
  {
    var next := OneAttempt(rules, chain[i], t, i, a);
    StepHere(rules, chain, i, a, t);
    OneAttemptGrows(rules, chain[i], t, i, a);
    LastFailureStable(rules, chain, t.starts, next.tally.starts, i, a, t.last);
    forall k: nat, c: nat | Position(chain, k, c) && Precedes(i, a, k, c) && Precedes(k, c, |chain|, 1)
      ensures StepError(rules, chain, next.tally.starts, k, c).None?
    {
      if k == i {
        NothingAfterLeaving(rules, chain, i, a, t, c);
      } else {
        NothingAfterTheEnd(rules, chain, i, a, t, k, c);
      }
    }
    hide OneAttempt, StepError, LastFailure, AtAttempt;
    Advanced(rules, chain, next.tally.starts, i, a, |chain|, 1, t.last, Some(next.verdict.error));
  }

  /** An attempt that does not end the run moves on with the last failure up to date. */
  lemma MovesOn(rules: Rules, chain: seq<Entry>, i: nat, a: nat, t: Tally)
    requires AtAttempt(rules, chain, i, a, t) && LastFailure(rules, chain, t.starts, i, a, t.last)
    requires !OneAttempt(rules, chain[i], t, i, a).Stop?
    ensures var next := OneAttempt(rules, chain[i], t, i, a);
      if next.Again? then AtAttempt(rules, chain, i, a + 1, next.tally) && LastFailure(rules, chain, next.tally.starts, i, a + 1, next.tally.last)
      else LastFailure(rules, chain, next.tally.starts, i + 1, 1, next.tally.last)
  {
    var next := OneAttempt(rules, chain[i], t, i, a);
    StepHere(rules, chain, i, a, t);
    AfterAttempt(rules, chain, i, a, t);
    AgainIsEarlier(rules, chain[i], t, i, a);
    OneAttemptGrows(rules, chain[i], t, i, a);
    LastFailureStable(rules, chain, t.starts, next.tally.starts, i, a, t.last);
    forall c: nat | c > a && !next.Again? ensures StepError(rules, chain, next.tally.starts, i, c).None? {
      NothingAfterLeaving(rules, chain, i, a, t, c);
    }
    hide OneAttempt, StepError, LastFailure, Counted, AllBefore, Ended, Retries;
    if next.Again? {
      Advanced(rules, chain, next.tally.starts, i, a, i, a + 1, t.last, next.tally.last);
    } else {
      Advanced(rules, chain, next.tally.starts, i, a, i + 1, 1, t.last, next.tally.last);
    }
  }

  lemma SkipsOn(rules: Rules, chain: seq<Entry>, i: nat, t: Tally)
    requires i < |chain| && AllBefore(t.starts, i, 1) && (!chain[i].available || !chain[i].adapter)
    requires LastFailure(rules, chain, t.starts, i, 1, t.last)
    ensures LastFailure(rules, chain, t.starts, i + 1, 1, t.last)
  {
    forall c: nat | c >= 1 ensures StepError(rules, chain, t.starts, i, c).None? {
      NothingOnSkipped(rules, chain, i, t.starts, c);
    }
    hide StepError, LastFailure;
    Advanced(rules, chain, t.starts, i, 1, i + 1, 1, t.last, t.last);
  }

  lemma {:induction false} EntriesRaise(rules: Rules, chain: seq<Entry>, i: nat, t: Tally)
    requires i <= |chain| && AllBefore(t.starts, i, 1) && Counted(rules, t) && !Ended(chain, t.starts)
    requires LastFailure(rules, chain, t.starts, i, 1, t.last)
    ensures var (v, t') := Entries(rules, chain, i, t); v.Raised? ==> Raises(rules, chain, t'.starts, v.error)
    decreases |chain| - i, rules.Attempts() + 1
  {
    hide LastFailure, Counted, Ended;
    if i < |chain| {
      if !chain[i].available || !chain[i].adapter {
        SkipsOn(rules, chain, i, t);
        assert AllBefore(t.starts, i + 1, 1);
        hide Raises;
        EntriesRaise(rules, chain, i + 1, t);
      } else {
        hide Raises;
        AttemptsRaise(rules, chain, i, 1, t);
      }
    }
  }

  lemma {:induction false} AttemptsRaise(rules: Rules, chain: seq<Entry>, i: nat, a: nat, t: Tally)
    requires AtAttempt(rules, chain, i, a, t) && LastFailure(rules, chain, t.starts, i, a, t.last)
    ensures var (v, t') := Attempts(rules, chain, i, a, t); v.Raised? ==> Raises(rules, chain, t'.starts, v.error)
    decreases |chain| - i, rules.Attempts() - a
  {
    hide OneAttempt, LastFailure, Counted, Ended, Raises, AllBefore, Retries;
    AfterAttempt(rules, chain, i, a, t);
    var next := OneAttempt(rules, chain[i], t, i, a);
    if next.Stop? {
      if next.verdict.Raised? {
        StopRaises(rules, chain, i, a, t);
      }
    } else {
      MovesOn(rules, chain, i, a, t);
      if next.Again? {
        AttemptsRaise(rules, chain, i, a + 1, next.tally);
      } else {
        EntriesRaise(rules, chain, i + 1, next.tally);
      }
    }
  }

  /** The error a failed dispatch raises: that of the last failing step of its chain (a failed attempt, a refused or
      failing admission, or a used-up family cap), and "no adapter" if no step failed. */
  lemma RaisedErrorIsLastFailure(rules: Rules, chain: seq<Entry>)
    ensures var (verdict, t) := Dispatch(rules, chain); verdict.Raised? ==> Raises(rules, chain, t.starts, verdict.error)
  {
    assert forall j: nat, b: nat :: !Precedes(j, b, 0, 1) || b == 0;
    assert LastFailure(rules, chain, [], 0, 1, None);
    EntriesRaise(rules, chain, 0, FRESH);
  }

  // ---------------------------------------------------------------- blackouts

  /** The blackout a granted attempt causes: of the tuple after a provider error or a timeout, of its whole family
      after those provider errors that speak of the provider as a whole. */
  predicate Blackens(met: Attempt, wholeFamily: bool) {
    match ProblemOf(met)
    case Some(Reported(e)) =>
      e.code.Provider? && (wholeFamily <==> e.code.provider in {Maintenance, UpstreamUnavailable, RateLimited, QuotaExceeded})
    case Some(TimedOut) => !wholeFamily
    case Some(Escaping(done)) => done == Some(wholeFamily)
    case _ => false
  }

  /** Attempt `a` on entry `i` blacks it out: it was made and failed so, or it was due and its request for admission
      timed out. */
  predicate BlackStep(rules: Rules, chain: seq<Entry>, starts: seq<Start>, i: nat, a: nat, wholeFamily: bool)
    requires i < |chain| && a >= 1
  {
    || (Start(i, a, chain[i].family) in starts && Blackens(chain[i].attempt(a), wholeFamily))
    || (chain[i].attempt(a) == AskFailed(true) && !wholeFamily
        && Reached(rules, chain, starts, i, a) && !Capped(rules, chain[i], Earlier(starts, i, a)))
  }

  lemma BlackStepStable(rules: Rules, chain: seq<Entry>, earlier: seq<Start>, later: seq<Start>, i: nat, a: nat, j: nat, b: nat, whole: bool)
    requires Grown(earlier, later, i, a) && Position(chain, j, b) && Precedes(j, b, i, a)
    ensures BlackStep(rules, chain, later, j, b, whole) == BlackStep(rules, chain, earlier, j, b, whole)
  {
    EarlierStable(earlier, later, i, a, j, b);
    EarlierStable(earlier, later, i, a, j, 1);
    SameMembership(earlier, later, i, a, Start(j, b, chain[j].family));
    if b > 1 {
      SameMembership(earlier, later, i, a, Start(j, b - 1, chain[j].family));
    }
    hide Earlier, Ended, Retries, Blackens, Capped;
  }

  /** The blackouts in the history are those of the steps before position (i, a). */
  ghost predicate BlackedOut(rules: Rules, chain: seq<Entry>, t: Tally, i: nat, a: nat) {
    forall j: nat, whole: bool :: Suppressed(j, whole) in t.trace <==>
      exists b: nat :: Position(chain, j, b) && Precedes(j, b, i, a) && BlackStep(rules, chain, t.starts, j, b, whole)
  }

  lemma SuppressionIs(problem: Problem, i: nat, j: nat, whole: bool)
    ensures Suppressed(j, whole) in Suppression(problem, i) <==> j == i && Blackens(NotStarted(problem), whole)
  {}

  lemma JudgedTrace(rules: Rules, t: Tally, i: nat, a: nat, problem: Problem)
    ensures Judge(rules, t, i, a, problem).tally.trace == t.trace + Suppression(problem, i)
  {
    hide Suppression;
  }

  lemma GrantedBlacks(rules: Rules, b: Tally, i: nat, a: nat, met: Attempt, j: nat, whole: bool)
    requires met.Granted()
    ensures Suppressed(j, whole) in LeasedNext(rules, b, i, a, met).tally.trace <==>
              Suppressed(j, whole) in b.trace || (j == i && Blackens(met, whole))
  {
    if ProblemOf(met).Some? {
      var r := if met.Ran? then b.(trace := b.trace + [Started(i, a)]) else b;
      JudgedTrace(rules, r, i, a, ProblemOf(met).value);
      SuppressionIs(ProblemOf(met).value, i, j, whole);
    }
    hide Judge, Suppression;
  }

  /** The attempt at hand is not capped, and its request for admission times out. */
  predicate AskTimesOut(rules: Rules, e: Entry, t: Tally, a: nat) {
    !Exhausted(rules, t) && !FamilyExhausted(rules, t, e.family) && e.attempt(a) == AskFailed(true)
  }

  lemma TraceHere(rules: Rules, e: Entry, t: Tally, i: nat, a: nat, j: nat, whole: bool)
    ensures Suppressed(j, whole) in OneAttempt(rules, e, t, i, a).tally.trace <==>
      || Suppressed(j, whole) in t.trace
      || (j == i && Tries(rules, e, t, a) && Blackens(e.attempt(a), whole))
      || (j == i && AskTimesOut(rules, e, t, a) && !whole)
  {
    var met := e.attempt(a);
    if met.Granted() {
      GrantedBlacks(rules, Began(t, i, a, e.family), i, a, met, j, whole);
    } else if met.AskFailed? {
      JudgedTrace(rules, t, i, a, AskProblem(met.timedOut));
      SuppressionIs(AskProblem(met.timedOut), i, j, whole);
    }
    hide Judge, Suppression, LeasedNext, Blackens, Exhausted, FamilyExhausted;
    assert met == AskFailed(true) ==> (Blackens(NotStarted(TimedOut), whole) <==> !whole) by { TimeoutBlackens(whole); }
    assert met == AskFailed(false) ==> !Blackens(NotStarted(Unexpected), whole) by { TimeoutBlackens(whole); }
  }

  lemma TimeoutBlackens(whole: bool)
    ensures (Blackens(NotStarted(TimedOut), whole) <==> !whole) && !Blackens(NotStarted(Unexpected), whole)
  {}

  lemma BlackHere(rules: Rules, chain: seq<Entry>, i: nat, a: nat, t: Tally, whole: bool)
    requires AtAttempt(rules, chain, i, a, t)
    ensures BlackStep(rules, chain, OneAttempt(rules, chain[i], t, i, a).tally.starts, i, a, whole) <==>
      || (Tries(rules, chain[i], t, a) && Blackens(chain[i].attempt(a), whole))
      || (AskTimesOut(rules, chain[i], t, a) && !whole)
  {
    ReachedHere(rules, chain, i, a, t);
    OneAttemptGrows(rules, chain[i], t, i, a);
    assert Count(t.families, chain[i].family) == CountFamily(t.starts, chain[i].family) && t.started == |t.starts|;
    hide OneAttempt, Reached, Earlier, Counted, Blackens;
  }

  lemma StepBlacks(rules: Rules, chain: seq<Entry>, i: nat, a: nat, t: Tally, j: nat, whole: bool)
    requires AtAttempt(rules, chain, i, a, t)
    ensures var t' := OneAttempt(rules, chain[i], t, i, a).tally;
      Suppressed(j, whole) in t'.trace <==> Suppressed(j, whole) in t.trace || (j == i && BlackStep(rules, chain, t'.starts, i, a, whole))
  {
    TraceHere(rules, chain[i], t, i, a, j, whole);
    BlackHere(rules, chain, i, a, t, whole);
    hide OneAttempt, BlackStep, Blackens, Tries, AskTimesOut;
  }

  lemma BlacksOn(rules: Rules, chain: seq<Entry>, i: nat, a: nat, t: Tally, i': nat, a': nat)
    requires AtAttempt(rules, chain, i, a, t) && BlackedOut(rules, chain, t, i, a) && Precedes(i, a, i', a')
    requires var t' := OneAttempt(rules, chain[i], t, i, a).tally;
      forall k: nat, c: nat, whole: bool | Position(chain, k, c) && Precedes(i, a, k, c) && Precedes(k, c, i', a') ::
        !BlackStep(rules, chain, t'.starts, k, c, whole)
    ensures BlackedOut(rules, chain, OneAttempt(rules, chain[i], t, i, a).tally, i', a')
  {
    var t' := OneAttempt(rules, chain[i], t, i, a).tally;
    OneAttemptGrows(rules, chain[i], t, i, a);
    assert Position(chain, i, a);
    forall j: nat, whole: bool
      ensures Suppressed(j, whole) in t'.trace <==>
        exists b: nat :: Position(chain, j, b) && Precedes(j, b, i', a') && BlackStep(rules, chain, t'.starts, j, b, whole)
    {
      StepBlacks(rules, chain, i, a, t, j, whole);
      forall b: nat | Position(chain, j, b) && Precedes(j, b, i, a)
        ensures BlackStep(rules, chain, t'.starts, j, b, whole) == BlackStep(rules, chain, t.starts, j, b, whole)
      {
        BlackStepStable(rules, chain, t.starts, t'.starts, i, a, j, b, whole);
      }
      hide OneAttempt, BlackStep, AtAttempt;
      assert Suppressed(j, whole) in t.trace <==>
        exists b: nat :: Position(chain, j, b) && Precedes(j, b, i, a) && BlackStep(rules, chain, t.starts, j, b, whole);
      assert forall b: nat | Precedes(j, b, i', a') :: Precedes(j, b, i, a) || (j == i && b == a) || Precedes(i, a, j, b);
    }
  }

  /** A step that is not reached and not made blacks nothing out. */
  lemma UnreachedBlacksNothing(rules: Rules, chain: seq<Entry>, starts: seq<Start>, j: nat, b: nat, whole: bool)
    requires Position(chain, j, b) && !Reached(rules, chain, starts, j, b) && Start(j, b, chain[j].family) !in starts
    ensures !BlackStep(rules, chain, starts, j, b, whole)
  {}

  lemma UnreachedAfterLeaving(rules: Rules, chain: seq<Entry>, i: nat, a: nat, t: Tally, c: nat)
    requires AtAttempt(rules, chain, i, a, t) && c > a && !OneAttempt(rules, chain[i], t, i, a).Again?
    ensures var starts := OneAttempt(rules, chain[i], t, i, a).tally.starts;
      !Reached(rules, chain, starts, i, c) && Start(i, c, chain[i].family) !in starts
  {
    OneAttemptGrows(rules, chain[i], t, i, a);
    OneAttemptKind(rules, chain[i], t, i, a);
    hide OneAttempt, Counted, Ended;
  }

  lemma UnreachedAfterTheEnd(rules: Rules, chain: seq<Entry>, i: nat, a: nat, t: Tally, j: nat, c: nat)
    requires AtAttempt(rules, chain, i, a, t) && i < j < |chain| && c >= 1 && OneAttempt(rules, chain[i], t, i, a).Stop?
    ensures var starts := OneAttempt(rules, chain[i], t, i, a).tally.starts;
      !Reached(rules, chain, starts, j, c) && Start(j, c, chain[j].family) !in starts
  {
    var starts := OneAttempt(rules, chain[i], t, i, a).tally.starts;
    OneAttemptGrows(rules, chain[i], t, i, a);
    OneAttemptKind(rules, chain[i], t, i, a);
    hide OneAttempt, Counted;
    assert starts[|t.starts|] == Start(i, a, chain[i].family);
    assert Before(starts[|starts| - 1], j, c);
    assert Earlier(starts, j, c) == starts;
    hide EndsRun;
  }

  lemma {:induction false} EntriesBlack(rules: Rules, chain: seq<Entry>, i: nat, t: Tally)
    requires i <= |chain| && AllBefore(t.starts, i, 1) && Counted(rules, t) && !Ended(chain, t.starts) && BlackedOut(rules, chain, t, i, 1)
    ensures BlackedOut(rules, chain, Entries(rules, chain, i, t).1, |chain|, 1)
    decreases |chain| - i, rules.Attempts() + 1
  {
    if i < |chain| {
      if !chain[i].available || !chain[i].adapter {
        SkipsBlack(rules, chain, i, t);
        hide BlackedOut, Counted, Ended;
        EntriesBlack(rules, chain, i + 1, t);
      } else {
        hide BlackedOut, Counted, Ended;
        AttemptsBlack(rules, chain, i, 1, t);
      }
    }
  }

  lemma SkipsBlack(rules: Rules, chain: seq<Entry>, i: nat, t: Tally)
    requires i < |chain| && AllBefore(t.starts, i, 1) && (!chain[i].available || !chain[i].adapter) && BlackedOut(rules, chain, t, i, 1)
    ensures BlackedOut(rules, chain, t, i + 1, 1) && AllBefore(t.starts, i + 1, 1)
  {
    forall b: nat, whole: bool | b >= 1 ensures !BlackStep(rules, chain, t.starts, i, b, whole) {
      hide Retries;
      assert Start(i, b, chain[i].family) !in t.starts;
      assert b > 1 ==> Start(i, b - 1, chain[i].family) !in t.starts;
      UnreachedBlacksNothing(rules, chain, t.starts, i, b, whole);
    }
    hide BlackStep;
    forall j: nat, whole: bool
      ensures Suppressed(j, whole) in t.trace <==>
        exists b: nat :: Position(chain, j, b) && Precedes(j, b, i + 1, 1) && BlackStep(rules, chain, t.starts, j, b, whole)
    {
      assert Suppressed(j, whole) in t.trace <==>
        exists b: nat :: Position(chain, j, b) && Precedes(j, b, i, 1) && BlackStep(rules, chain, t.starts, j, b, whole);
    }
  }

  lemma {:induction false} AttemptsBlack(rules: Rules, chain: seq<Entry>, i: nat, a: nat, t: Tally)
    requires AtAttempt(rules, chain, i, a, t) && BlackedOut(rules, chain, t, i, a)
    ensures BlackedOut(rules, chain, Attempts(rules, chain, i, a, t).1, |chain|, 1)
    decreases |chain| - i, rules.Attempts() - a
  {
    var next := OneAttempt(rules, chain[i], t, i, a);
    forall k: nat, c: nat, whole: bool | Position(chain, k, c) && Precedes(i, a, k, c) && ((k == i && !next.Again?) || (k > i && next.Stop?))
      ensures !BlackStep(rules, chain, next.tally.starts, k, c, whole)
    {
      if k == i {
        UnreachedAfterLeaving(rules, chain, i, a, t, c);
      } else {
        UnreachedAfterTheEnd(rules, chain, i, a, t, k, c);
      }
      hide OneAttempt, Reached;
      UnreachedBlacksNothing(rules, chain, next.tally.starts, k, c, whole);
    }
    AfterAttempt(rules, chain, i, a, t);
    AgainIsEarlier(rules, chain[i], t, i, a);
    hide OneAttempt, BlackedOut, BlackStep, Counted, Ended, AllBefore, Retries;
    if next.Stop? {
      BlacksOn(rules, chain, i, a, t, |chain|, 1);
    } else if next.Again? {
      BlacksOn(rules, chain, i, a, t, i, a + 1);
      AttemptsBlack(rules, chain, i, a + 1, next.tally);
    } else {
      BlacksOn(rules, chain, i, a, t, i + 1, 1);
      EntriesBlack(rules, chain, i + 1, next.tally);
    }
  }

  /** Which tuples a dispatch blacks out: entry `i`, alone or with its family, exactly if some attempt on it was made
      and failed with a provider error or a timeout that asks for that, or timed out asking for admission. */
  lemma BlackoutsExactly(rules: Rules, chain: seq<Entry>, i: nat, wholeFamily: bool)
    ensures var t := Dispatch(rules, chain).1;
      Suppressed(i, wholeFamily) in t.trace <==> exists a: nat :: i < |chain| && a >= 1 && BlackStep(rules, chain, t.starts, i, a, wholeFamily)
  {
    EntriesBlack(rules, chain, 0, FRESH);
    var t := Dispatch(rules, chain).1;
    assert Suppressed(i, wholeFamily) in t.trace <==>
      exists b: nat :: Position(chain, i, b) && Precedes(i, b, |chain|, 1) && BlackStep(rules, chain, t.starts, i, b, wholeFamily);
    hide BlackStep;
  }
}
