/** Which entries a stream starts, how it ends and what it delivers, as functions of its script. */
module StreamChoices {
  import opened Wrappers
  import opened ProviderErrors
  import opened Fallback
  import P = FallbackProperties
  import E = FallbackErrors
  import S = Stream

  // ---------------------------------------------------------------- what is delivered

  /** The frames a caller may see, and some it may not. */
  lemma FrameExamples()
    ensures S.Framed("data: x\n\n") && S.Framed(": ping\n\n") && S.Framed(":\n\n")
    ensures !S.Framed("data: x\n") && !S.Framed("data:x\n\n") && !S.Framed("event: x\n\n") && !S.Framed(":x\n\n") && !S.Framed("\n\n")
  {
    assert "data: x\n\n"[|"data: x\n\n"| - 2..] == "\n\n" && ": ping\n\n"[|": ping\n\n"| - 2..] == "\n\n" && ":\n\n"[1..] == "\n\n";
    assert "data: x\n"[|"data: x\n"| - 2..][0] == 'x';
    assert "data:x\n\n"[5] == 'x' && "data: "[5] == ' ';
    assert "event: x\n\n"[0] == 'e' && ":x\n\n"[1] == 'x' && "\n\n"[0] == '\n';
    assert ": "[1] == ' ' && ":\n"[1] == '\n' && ": "[0] == ':' && ":\n"[0] == ':' && "data: "[0] == 'd';
  }

  lemma {:induction false} ValidIsLongest(events: seq<string>)
    ensures S.Valid(events) <= events && forall k | 0 <= k < |S.Valid(events)| :: S.Framed(events[k])
    ensures |S.Valid(events)| < |events| ==> !S.Framed(events[|S.Valid(events)|])
  {
    if events != [] && S.Framed(events[0]) {
      ValidIsLongest(events[1..]);
      hide S.Framed;
    }
  }

  /** A stream delivers its leading framed events, stopping at the first that is not framed, at its end, or after as
      many as the caller stays for. */
  lemma DeliveredExactly(met: S.Attempt, patience: S.Patience)
    requires met.Flow?
    ensures var n := |S.Delivered(met, patience)|;
      && S.Delivered(met, patience) <= met.events
      && (forall k | 0 <= k < n :: S.Framed(met.events[k]))
      && (patience.Some? ==> n <= patience.value)
      && (n == |met.events| || !S.Framed(met.events[n]) || patience == Some(n))
  {
    ValidIsLongest(met.events);
    hide S.Framed, S.Valid;
  }

  // ---------------------------------------------------------------- how an attempt ends

  /** The caller is gone before the attempt ends: it has received as many events as it stays for. */
  predicate CallerGone(met: S.Attempt, patience: S.Patience) {
    met.LeftStarting? || (met.Flow? && patience.Some? && |S.Delivered(met, patience)| == patience.value)
  }

  /** What ends a granted attempt whose caller stays: a failed start, an event that is not framed, or what the
      provider's stream ends in. */
  ghost function Ending(met: S.Attempt, patience: S.Patience): Option<Problem> {
    if met.NotStarted? then Some(met.problem)
    else if !met.Flow? || CallerGone(met, patience) then None
    else if exists event :: event in met.events && !S.Framed(event) then Some(Reported(S.FRAME_ERROR))
    else met.end
  }

  lemma EndingIsStopper(met: S.Attempt, patience: S.Patience)
    requires met.Granted()
    ensures Ending(met, patience) == S.Stopper(met, patience)
    ensures CallerGone(met, patience) <==> S.Abandoned(met, patience)
  {
    if met.Flow? {
      ValidIsLongest(met.events);
      var n := |S.Valid(met.events)|;
      if n < |met.events| {
        assert met.events[n] in met.events;
      }
      hide S.Framed, S.Valid;
    }
  }

  /** Errors that let the next entry be tried. */
  predicate Soft(problem: Problem) {
    problem.TimedOut? || problem.Unexpected? || (problem.Reported? && FallbackEligible(problem.error))
  }

  /** An attempt after which the next entry is tried: it delivered nothing, and failed softly. */
  ghost predicate PassesOn(met: S.Attempt, patience: S.Patience) {
    && met.Granted() && !S.CleanupRaises(met) && S.Delivered(met, patience) == []
    && Ending(met, patience).Some? && Soft(Ending(met, patience).value)
  }

  function ErrorIn(problem: Problem): Option<TupleError> {
    match problem
    case Reported(e) => Some(e)
    case TimedOut => Some(TIMEOUT_ERROR)
    case Unexpected => Some(UNEXPECTED_ERROR)
    case Escaping(_) => None
  }

  // ---------------------------------------------------------------- the reference

  predicate Usable(e: S.Entry) { e.available && e.adapter }

  predicate OutOfStarts(rules: Rules, before: seq<Start>) { rules.maxAttempts > 0 && |before| >= rules.maxAttempts }

  predicate OutOfFamily(rules: Rules, e: S.Entry, before: seq<Start>) {
    rules.maxFamilyAttempts > 0 && P.CountFamily(before, e.family) >= rules.maxFamilyAttempts
  }

  function Before(starts: seq<Start>, i: nat): seq<Start> { P.Earlier(starts, i, 1) }

  /** The caller was cancelled while entry `j` asked for admission. */
  predicate LeftAt(rules: Rules, chain: seq<S.Entry>, starts: seq<Start>, j: nat)
    requires j < |chain|
  {
    && Usable(chain[j]) && !OutOfStarts(rules, Before(starts, j)) && !OutOfFamily(rules, chain[j], Before(starts, j))
    && chain[j].attempt.LeftAsking?
  }

  /** Is entry `i` tried, judging only by the entries before it? */
  ghost predicate Reached(rules: Rules, chain: seq<S.Entry>, patience: S.Patience, starts: seq<Start>, i: nat)
    requires i < |chain|
  {
    && Usable(chain[i])
    && (forall s | s in Before(starts, i) :: s.entry < |chain| && PassesOn(chain[s.entry].attempt, patience))
    && (forall j | 0 <= j < i :: !LeftAt(rules, chain, starts, j))
  }

  ghost predicate Due(rules: Rules, chain: seq<S.Entry>, patience: S.Patience, starts: seq<Start>, i: nat)
    requires i < |chain|
  {
    && Reached(rules, chain, patience, starts, i)
    && !OutOfStarts(rules, Before(starts, i)) && !OutOfFamily(rules, chain[i], Before(starts, i))
    && chain[i].attempt.Granted()
  }

  /** The error of entry `i`'s step, if it fails. */
  ghost function StepError(rules: Rules, chain: seq<S.Entry>, patience: S.Patience, starts: seq<Start>, i: nat): Option<TupleError>
    requires i < |chain|
  {
    var met := chain[i].attempt;
    if !Reached(rules, chain, patience, starts, i) || OutOfStarts(rules, Before(starts, i)) then None
    else if OutOfFamily(rules, chain[i], Before(starts, i)) || met.Denied? then Some(CAPACITY_ERROR)
    else if met.AskFailed? then Some(if met.timedOut then TIMEOUT_ERROR else UNEXPECTED_ERROR)
    else if met.LeftAsking? || S.CleanupRaises(met) || Ending(met, patience).None? then None
    else ErrorIn(Ending(met, patience).value)
  }

  /** The error a failing stream ends with: that of its last failing step, or "no adapter". */
  ghost predicate Fails(rules: Rules, chain: seq<S.Entry>, patience: S.Patience, starts: seq<Start>, error: TupleError) {
    || ((forall i: nat | i < |chain| :: StepError(rules, chain, patience, starts, i).None?) && error == NO_ADAPTER_ERROR)
    || (exists i: nat :: i < |chain| && StepError(rules, chain, patience, starts, i) == Some(error)
          && forall j: nat | i < j < |chain| :: StepError(rules, chain, patience, starts, j).None?)
  }

  /** The last start ran to the end of its events, with its caller. */
  ghost predicate LastCompletes(chain: seq<S.Entry>, patience: S.Patience, starts: seq<Start>) {
    starts != [] && starts[|starts| - 1].entry < |chain| && (
    var met := chain[starts[|starts| - 1].entry].attempt;
    met.Flow? && met.cleans && !CallerGone(met, patience) && Ending(met, patience).None?)
  }

  /** The caller went while an entry asked for admission, or during the last start. */
  ghost predicate CallerLeft(rules: Rules, chain: seq<S.Entry>, patience: S.Patience, starts: seq<Start>) {
    || (exists j: nat :: j < |chain| && LeftAt(rules, chain, starts, j) && Reached(rules, chain, patience, starts, j))
    || (starts != [] && starts[|starts| - 1].entry < |chain| && (
        var met := chain[starts[|starts| - 1].entry].attempt;
        CallerGone(met, patience) && !S.CleanupRaises(met)))
  }

  /** The cleanup of the last start raised, or one of its `except` clauses did. */
  ghost predicate LastEscapes(chain: seq<S.Entry>, patience: S.Patience, starts: seq<Start>) {
    starts != [] && starts[|starts| - 1].entry < |chain| && (
    var met := chain[starts[|starts| - 1].entry].attempt;
    S.CleanupRaises(met) || (Ending(met, patience).Some? && Ending(met, patience).value.Escaping?))
  }

  /** The whole of what a stream's starts say of its end. */
  ghost predicate EndsAs(rules: Rules, chain: seq<S.Entry>, patience: S.Patience, starts: seq<Start>, verdict: S.Verdict) {
    && (verdict == S.Completed <==> LastCompletes(chain, patience, starts))
    && (verdict == S.ClosedByCaller <==> CallerLeft(rules, chain, patience, starts))
    && (verdict == S.Verdict.Escaped <==> LastEscapes(chain, patience, starts))
    && (verdict.Failing? ==> Fails(rules, chain, patience, starts, verdict.error))
  }

  ghost predicate StartedAsDue(rules: Rules, chain: seq<S.Entry>, patience: S.Patience, starts: seq<Start>) {
    forall i: nat | i < |chain| :: Start(i, 1, chain[i].family) in starts <==> Due(rules, chain, patience, starts, i)
  }

  // ---------------------------------------------------------------- one entry

  /** What the induction knows before entry i. */
  ghost predicate AtEntry(rules: Rules, chain: seq<S.Entry>, patience: S.Patience, t: Tally, i: nat) {
    && i <= |chain| && P.AllBefore(t.starts, i, 1) && P.Counted(rules, t)
    && (forall s | s in t.starts :: s.entry < |chain| && PassesOn(chain[s.entry].attempt, patience))
    && (forall j: nat | j < i :: !LeftAt(rules, chain, t.starts, j))
  }

  /** The steps before entry i, and the error they leave. */
  ghost predicate Settled(rules: Rules, chain: seq<S.Entry>, patience: S.Patience, t: Tally, i: nat) {
    && (forall j: nat | j < i && j < |chain| :: Start(j, 1, chain[j].family) in t.starts <==> Due(rules, chain, patience, t.starts, j))
    && (if t.last.None? then forall j: nat | j < i && j < |chain| :: StepError(rules, chain, patience, t.starts, j).None?
        else exists j: nat :: j < i && j < |chain| && StepError(rules, chain, patience, t.starts, j) == t.last
               && forall k: nat | j < k < i && k < |chain| :: StepError(rules, chain, patience, t.starts, k).None?)
  }

  /** The outcome of one entry in terms of its script. */
  lemma EntryOutcome(rules: Rules, e: S.Entry, patience: S.Patience, t: Tally, i: nat)
    requires P.Counted(rules, t)
    ensures var next := S.OneEntry(rules, e, patience, t, i);
            var started := t.starts + [Start(i, 1, e.family)];
      if !Usable(e) then next == S.Onward(t)
      else if OutOfStarts(rules, t.starts) then next == S.Over(S.GiveUp(t))
      else if OutOfFamily(rules, e, t.starts) || e.attempt.Denied? then
        next.Onward? && next.tally.starts == t.starts && next.tally.last == Some(CAPACITY_ERROR)
      else if e.attempt.LeftAsking? then next.Over? && next.outcome.verdict == S.ClosedByCaller && next.outcome.tally.starts == t.starts
      else if e.attempt.AskFailed? then
        next.Onward? && next.tally.starts == t.starts && next.tally.last == Some(if e.attempt.timedOut then TIMEOUT_ERROR else UNEXPECTED_ERROR)
      else if PassesOn(e.attempt, patience) then
        next.Onward? && next.tally.starts == started && next.tally.last == ErrorIn(Ending(e.attempt, patience).value)
      else
        && next.Over? && next.outcome.tally.starts == started
        && (next.outcome.verdict == S.Verdict.Escaped <==>
              S.CleanupRaises(e.attempt) || (Ending(e.attempt, patience).Some? && Ending(e.attempt, patience).value.Escaping?))
        && (next.outcome.verdict == S.ClosedByCaller <==> !S.CleanupRaises(e.attempt) && CallerGone(e.attempt, patience))
        && (next.outcome.verdict == S.Completed <==> !S.CleanupRaises(e.attempt) && !CallerGone(e.attempt, patience) && Ending(e.attempt, patience).None?)
        && (next.outcome.verdict.Failing? ==>
              && !S.CleanupRaises(e.attempt) && Ending(e.attempt, patience).Some?
              && Some(next.outcome.verdict.error) == ErrorIn(Ending(e.attempt, patience).value))
  {
    assert Count(t.families, e.family) == P.CountFamily(t.starts, e.family) && t.started == |t.starts|;
    if e.attempt.Granted() {
      EndingIsStopper(e.attempt, patience);
    }
    hide S.Delivered, S.Stopper, S.Abandoned, S.StreamSuppression, FallbackEligible, P.Counted, Ending, CallerGone;
  }

  // ---------------------------------------------------------------- later starts change nothing earlier

  lemma BeforeStable(earlier: seq<Start>, later: seq<Start>, i: nat, j: nat)
    requires P.Grown(earlier, later, i, 1) && j <= i
    ensures Before(later, j) == Before(earlier, j)
  {
    E.EarlierStable(earlier, later, i, 1, j, 1);
  }

  lemma StepStable(rules: Rules, chain: seq<S.Entry>, patience: S.Patience, earlier: seq<Start>, later: seq<Start>, i: nat, j: nat)
    requires P.Grown(earlier, later, i, 1) && j < i && j < |chain|
    ensures LeftAt(rules, chain, later, j) == LeftAt(rules, chain, earlier, j)
    ensures Reached(rules, chain, patience, later, j) == Reached(rules, chain, patience, earlier, j)
    ensures StepError(rules, chain, patience, later, j) == StepError(rules, chain, patience, earlier, j)
    ensures Due(rules, chain, patience, later, j) == Due(rules, chain, patience, earlier, j)
    ensures Start(j, 1, chain[j].family) in later <==> Start(j, 1, chain[j].family) in earlier
  {
    BeforeStable(earlier, later, i, j);
    forall k: nat | k <= j ensures LeftAt(rules, chain, later, k) == LeftAt(rules, chain, earlier, k) {
      BeforeStable(earlier, later, i, k);
    }
    E.SameMembership(earlier, later, i, 1, Start(j, 1, chain[j].family));
    hide Before, PassesOn, Ending, OutOfStarts, OutOfFamily, LeftAt;
  }

  lemma ReachedHere(rules: Rules, chain: seq<S.Entry>, patience: S.Patience, t: Tally, i: nat, later: seq<Start>)
    requires AtEntry(rules, chain, patience, t, i) && i < |chain| && P.Grown(t.starts, later, i, 1)
    ensures Before(later, i) == t.starts
    ensures Reached(rules, chain, patience, later, i) <==> Usable(chain[i])
  {
    P.EarlierIs(t.starts, later, i, 1);
    forall j: nat | j < i ensures !LeftAt(rules, chain, later, j) {
      StepStable(rules, chain, patience, t.starts, later, i, j);
    }
    hide PassesOn, LeftAt;
  }

  lemma SettledStable(rules: Rules, chain: seq<S.Entry>, patience: S.Patience, t: Tally, later: seq<Start>, i: nat)
    requires Settled(rules, chain, patience, t, i) && P.Grown(t.starts, later, i, 1)
    ensures Settled(rules, chain, patience, t.(starts := later), i)
  {
    forall j: nat | j < i && j < |chain|
      ensures StepError(rules, chain, patience, later, j) == StepError(rules, chain, patience, t.starts, j)
      ensures Due(rules, chain, patience, later, j) == Due(rules, chain, patience, t.starts, j)
      ensures Start(j, 1, chain[j].family) in later <==> Start(j, 1, chain[j].family) in t.starts
    {
      StepStable(rules, chain, patience, t.starts, later, i, j);
    }
    hide StepError, Due;
  }

  /** The step of entry i, added to those before it. */
  lemma OneMoreSettled(rules: Rules, chain: seq<S.Entry>, patience: S.Patience, t: Tally, t': Tally, i: nat)
    requires i < |chain| && Settled(rules, chain, patience, t.(starts := t'.starts), i)
    requires Start(i, 1, chain[i].family) in t'.starts <==> Due(rules, chain, patience, t'.starts, i)
    requires var e := StepError(rules, chain, patience, t'.starts, i); t'.last == if e.Some? then e else t.last
    ensures Settled(rules, chain, patience, t', i + 1)
  {
    hide StepError, Due;
    if StepError(rules, chain, patience, t'.starts, i).None? && t.last.Some? {
      var j: nat :| j < i && j < |chain| && StepError(rules, chain, patience, t'.starts, j) == t.last
        && forall k: nat | j < k < i && k < |chain| :: StepError(rules, chain, patience, t'.starts, k).None?;
      assert j < i + 1 && StepError(rules, chain, patience, t'.starts, j) == t'.last;
    }
  }

  /** What entry i adds, in the terms of the reference. */
  lemma EntryStep(rules: Rules, chain: seq<S.Entry>, patience: S.Patience, t: Tally, i: nat)
    requires AtEntry(rules, chain, patience, t, i) && i < |chain|
    ensures var next := S.OneEntry(rules, chain[i], patience, t, i);
            var t' := S.Result(next);
            var e := StepError(rules, chain, patience, t'.starts, i);
      && P.Grown(t.starts, t'.starts, i, 1) && P.AllBefore(t'.starts, i + 1, 1)
      && (Start(i, 1, chain[i].family) in t'.starts <==> Due(rules, chain, patience, t'.starts, i))
      && (next.Onward? ==> t'.last == (if e.Some? then e else t.last) && AtEntry(rules, chain, patience, t', i + 1))
      && (next.Over? && next.outcome.verdict.Failing? && !OutOfStarts(rules, t.starts) ==> e == Some(next.outcome.verdict.error))
      && (OutOfStarts(rules, t.starts) ==> e.None?)
  {
    var next := S.OneEntry(rules, chain[i], patience, t, i);
    var t' := S.Result(next);
    EntryOutcome(rules, chain[i], patience, t, i);
    assert P.Grown(t.starts, t'.starts, i, 1) && P.AllBefore(t'.starts, i + 1, 1);
    ReachedHere(rules, chain, patience, t, i, t'.starts);
    assert Start(i, 1, chain[i].family) !in t.starts;
    S.OneEntryCounted(rules, chain[i], patience, t, i);
    forall j: nat | j < i ensures !LeftAt(rules, chain, t'.starts, j) {
      StepStable(rules, chain, patience, t.starts, t'.starts, i, j);
    }
    hide S.OneEntry, S.Result, PassesOn, Ending, CallerGone, P.Counted, Reached, Before, OutOfStarts, OutOfFamily;
  }

  // ---------------------------------------------------------------- the whole stream

  /** What makes a later entry unreachable: the starts are used up, the caller has gone, or a start did not pass on. */
  lemma Unreachable(rules: Rules, chain: seq<S.Entry>, patience: S.Patience, starts: seq<Start>, i: nat, j: nat)
    requires i < j < |chain| && P.AllBefore(starts, i + 1, 1)
    requires || OutOfStarts(rules, starts)
             || LeftAt(rules, chain, starts, i)
             || exists s :: s in starts && s.entry < |chain| && !PassesOn(chain[s.entry].attempt, patience)
    ensures Start(j, 1, chain[j].family) !in starts && !Due(rules, chain, patience, starts, j)
    ensures StepError(rules, chain, patience, starts, j).None?
    ensures LeftAt(rules, chain, starts, j) ==> !Reached(rules, chain, patience, starts, j)
  {
    AllEarlier(starts, i, j);
    hide PassesOn, Ending, Before, OutOfFamily;
  }

  lemma AllEarlier(starts: seq<Start>, i: nat, j: nat)
    requires P.AllBefore(starts, i + 1, 1) && i < j
    ensures Before(starts, j) == starts
  {
    if starts != [] {
      assert P.Before(starts[|starts| - 1], j, 1);
    }
  }

  /** After an entry that ends the run, no entry is due and no step fails. */
  lemma NothingAfter(rules: Rules, chain: seq<S.Entry>, patience: S.Patience, t: Tally, i: nat, j: nat)
    requires AtEntry(rules, chain, patience, t, i) && i < j < |chain| && S.OneEntry(rules, chain[i], patience, t, i).Over?
    ensures var starts := S.Result(S.OneEntry(rules, chain[i], patience, t, i)).starts;
      && Start(j, 1, chain[j].family) !in starts && !Due(rules, chain, patience, starts, j)
      && StepError(rules, chain, patience, starts, j).None?
      && (LeftAt(rules, chain, starts, j) ==> !Reached(rules, chain, patience, starts, j))
  {
    var starts := S.Result(S.OneEntry(rules, chain[i], patience, t, i)).starts;
    WhyOver(rules, chain, patience, t, i);
    EntryStep(rules, chain, patience, t, i);
    hide S.OneEntry, S.Result, PassesOn, LeftAt, Due, Reached, StepError;
    Unreachable(rules, chain, patience, starts, i, j);
  }

  lemma WhyOver(rules: Rules, chain: seq<S.Entry>, patience: S.Patience, t: Tally, i: nat)
    requires AtEntry(rules, chain, patience, t, i) && i < |chain| && S.OneEntry(rules, chain[i], patience, t, i).Over?
    ensures var starts := S.Result(S.OneEntry(rules, chain[i], patience, t, i)).starts;
      || (OutOfStarts(rules, starts) && starts == t.starts)
      || LeftAt(rules, chain, starts, i)
      || exists s :: s in starts && s.entry < |chain| && !PassesOn(chain[s.entry].attempt, patience)
  {
    var starts := S.Result(S.OneEntry(rules, chain[i], patience, t, i)).starts;
    EntryOutcome(rules, chain[i], patience, t, i);
    if starts == t.starts {
      ReachedHere(rules, chain, patience, t, i, starts);
    } else {
      assert starts[|t.starts|] == Start(i, 1, chain[i].family);
      assert Start(i, 1, chain[i].family) in starts;
    }
    hide S.OneEntry, PassesOn, Ending, CallerGone, P.Counted, Before;
  }

  ghost predicate Answered(rules: Rules, chain: seq<S.Entry>, patience: S.Patience, o: S.Outcome) {
    StartedAsDue(rules, chain, patience, o.tally.starts) && EndsAs(rules, chain, patience, o.tally.starts, o.verdict)
  }

  /** The end of the chain: nothing was started that ends a stream, so it fails with the last failure. */
  lemma ChainExhausted(rules: Rules, chain: seq<S.Entry>, patience: S.Patience, t: Tally)
    requires AtEntry(rules, chain, patience, t, |chain|) && Settled(rules, chain, patience, t, |chain|)
    ensures Answered(rules, chain, patience, S.GiveUp(t))
  {
    GaveUp(rules, chain, patience, t);
  }

  /** A stream that gives up, its starts all having passed on. */
  lemma GaveUp(rules: Rules, chain: seq<S.Entry>, patience: S.Patience, t: Tally)
    requires Settled(rules, chain, patience, t, |chain|)
    requires forall s | s in t.starts :: s.entry < |chain| && PassesOn(chain[s.entry].attempt, patience)
    requires forall j: nat | j < |chain| :: LeftAt(rules, chain, t.starts, j) ==> !Reached(rules, chain, patience, t.starts, j)
    ensures Answered(rules, chain, patience, S.GiveUp(t))
  {
    if t.starts != [] {
      var last := t.starts[|t.starts| - 1];
      assert last in t.starts;
      PassersDoNotEnd(chain[last.entry].attempt, patience);
    }
    hide StepError, Due, LeftAt, Reached, PassesOn, Ending, CallerGone;
  }

  lemma PassersDoNotEnd(met: S.Attempt, patience: S.Patience)
    requires PassesOn(met, patience)
    ensures Ending(met, patience).Some? && !Ending(met, patience).value.Escaping? && !CallerGone(met, patience) && !S.CleanupRaises(met)
  {
    hide S.Delivered;
  }

  /** A run that ends at entry i has settled all entries: none after it is due or fails. */
  lemma AllSettled(rules: Rules, chain: seq<S.Entry>, patience: S.Patience, t: Tally, i: nat)
    requires AtEntry(rules, chain, patience, t, i) && Settled(rules, chain, patience, t, i) && i < |chain|
    requires S.OneEntry(rules, chain[i], patience, t, i).Over?
    ensures var t' := S.Result(S.OneEntry(rules, chain[i], patience, t, i));
            var e := StepError(rules, chain, patience, t'.starts, i);
      Settled(rules, chain, patience, t'.(last := if e.Some? then e else t.last), |chain|)
  {
    var t' := S.Result(S.OneEntry(rules, chain[i], patience, t, i));
    var e := StepError(rules, chain, patience, t'.starts, i);
    var last := if e.Some? then e else t.last;
    EntryStep(rules, chain, patience, t, i);
    SettledStable(rules, chain, patience, t, t'.starts, i);
    forall j: nat | i < j < |chain|
      ensures (Start(j, 1, chain[j].family) in t'.starts <==> Due(rules, chain, patience, t'.starts, j))
           && StepError(rules, chain, patience, t'.starts, j).None?
    {
      NothingAfter(rules, chain, patience, t, i, j);
    }
    hide S.OneEntry, S.Result, StepError, Due, Settled;
    OneMoreSettled(rules, chain, patience, t, t'.(last := last), i);
    ExtendSettled(rules, chain, patience, t'.(last := last), i + 1);
  }

  lemma ExtendSettled(rules: Rules, chain: seq<S.Entry>, patience: S.Patience, t: Tally, i: nat)
    requires i <= |chain| && Settled(rules, chain, patience, t, i)
    requires forall j: nat | i <= j < |chain| ::
      (Start(j, 1, chain[j].family) in t.starts <==> Due(rules, chain, patience, t.starts, j)) && StepError(rules, chain, patience, t.starts, j).None?
    ensures Settled(rules, chain, patience, t, |chain|)
  {
    hide StepError, Due;
  }

  /** No caller left while asking, unless at the entry where the run ended. */
  lemma NobodyLeft(rules: Rules, chain: seq<S.Entry>, patience: S.Patience, t: Tally, i: nat, j: nat)
    requires AtEntry(rules, chain, patience, t, i) && i < |chain| && j < |chain| && S.OneEntry(rules, chain[i], patience, t, i).Over?
    requires var starts := S.Result(S.OneEntry(rules, chain[i], patience, t, i)).starts; j == i ==> !LeftAt(rules, chain, starts, i)
    ensures var starts := S.Result(S.OneEntry(rules, chain[i], patience, t, i)).starts;
      LeftAt(rules, chain, starts, j) ==> !Reached(rules, chain, patience, starts, j)
  {
    var starts := S.Result(S.OneEntry(rules, chain[i], patience, t, i)).starts;
    EntryStep(rules, chain, patience, t, i);
    if j < i {
      StepStable(rules, chain, patience, t.starts, starts, i, j);
    } else if j > i {
      NothingAfter(rules, chain, patience, t, i, j);
    }
    hide S.OneEntry, S.Result, LeftAt, Reached;
  }

  lemma SettledMeans(rules: Rules, chain: seq<S.Entry>, patience: S.Patience, t: Tally)
    requires Settled(rules, chain, patience, t, |chain|)
    ensures StartedAsDue(rules, chain, patience, t.starts)
    ensures Fails(rules, chain, patience, t.starts, if t.last.Some? then t.last.value else NO_ADAPTER_ERROR)
  {
    hide StepError, Due;
  }

  /** The verdict of an entry that ends the run by its own start. */
  lemma StartVerdict(rules: Rules, chain: seq<S.Entry>, patience: S.Patience, t: Tally, i: nat)
    requires AtEntry(rules, chain, patience, t, i) && i < |chain|
    requires S.OneEntry(rules, chain[i], patience, t, i).Over? && S.Result(S.OneEntry(rules, chain[i], patience, t, i)).starts != t.starts
    ensures var o := S.OneEntry(rules, chain[i], patience, t, i).outcome;
      && (o.verdict == S.Completed <==> LastCompletes(chain, patience, o.tally.starts))
      && (o.verdict == S.Verdict.Escaped <==> LastEscapes(chain, patience, o.tally.starts))
      && (o.verdict == S.ClosedByCaller <==> !S.CleanupRaises(chain[i].attempt) && CallerGone(chain[i].attempt, patience))
      && o.tally.starts != [] && o.tally.starts[|o.tally.starts| - 1] == Start(i, 1, chain[i].family)
      && !LeftAt(rules, chain, o.tally.starts, i)
  {
    EntryOutcome(rules, chain[i], patience, t, i);
    hide S.OneEntry, PassesOn, CallerGone, OutOfFamily, OutOfStarts, Before, S.Framed, S.Delivered, P.Counted, P.AllBefore;
  }

  /** An entry that ends the run, when its own attempt was started. */
  lemma StartEnds(rules: Rules, chain: seq<S.Entry>, patience: S.Patience, t: Tally, i: nat)
    requires AtEntry(rules, chain, patience, t, i) && Settled(rules, chain, patience, t, i) && i < |chain|
    requires S.OneEntry(rules, chain[i], patience, t, i).Over? && S.Result(S.OneEntry(rules, chain[i], patience, t, i)).starts != t.starts
    ensures Answered(rules, chain, patience, S.OneEntry(rules, chain[i], patience, t, i).outcome)
  {
    var o := S.OneEntry(rules, chain[i], patience, t, i).outcome;
    var e := StepError(rules, chain, patience, o.tally.starts, i);
    StartVerdict(rules, chain, patience, t, i);
    EntryStep(rules, chain, patience, t, i);
    AllSettled(rules, chain, patience, t, i);
    SettledMeans(rules, chain, patience, o.tally.(last := if e.Some? then e else t.last));
    forall j: nat | j < |chain| ensures LeftAt(rules, chain, o.tally.starts, j) ==> !Reached(rules, chain, patience, o.tally.starts, j) {
      NobodyLeft(rules, chain, patience, t, i, j);
    }
    assert !OutOfStarts(rules, t.starts) by { WhyStarted(rules, chain[i], patience, t, i); }
    hide S.OneEntry, StepError, Due, LeftAt, Reached, PassesOn, Ending, CallerGone, AtEntry, Fails, LastCompletes, LastEscapes, StartedAsDue, Settled;
  }

  lemma WhyStarted(rules: Rules, e: S.Entry, patience: S.Patience, t: Tally, i: nat)
    requires P.Counted(rules, t) && S.Result(S.OneEntry(rules, e, patience, t, i)).starts != t.starts
    ensures !OutOfStarts(rules, t.starts)
  {
    EntryOutcome(rules, e, patience, t, i);
    hide S.OneEntry, P.Counted;
  }

  /** ... and when it was not: the starts were used up, or the caller left. */
  lemma NoStartEnds(rules: Rules, chain: seq<S.Entry>, patience: S.Patience, t: Tally, i: nat)
    requires AtEntry(rules, chain, patience, t, i) && Settled(rules, chain, patience, t, i) && i < |chain|
    requires S.OneEntry(rules, chain[i], patience, t, i).Over? && S.Result(S.OneEntry(rules, chain[i], patience, t, i)).starts == t.starts
    ensures Answered(rules, chain, patience, S.OneEntry(rules, chain[i], patience, t, i).outcome)
  {
    var o := S.OneEntry(rules, chain[i], patience, t, i).outcome;
    EntryOutcome(rules, chain[i], patience, t, i);
    EntryStep(rules, chain, patience, t, i);
    AllSettled(rules, chain, patience, t, i);
    ReachedHere(rules, chain, patience, t, i, t.starts);
    if t.starts != [] {
      assert t.starts[|t.starts| - 1] in t.starts;
      PassersDoNotEnd(chain[t.starts[|t.starts| - 1].entry].attempt, patience);
    }
    if OutOfStarts(rules, t.starts) {
      forall j: nat | j < |chain| ensures LeftAt(rules, chain, t.starts, j) ==> !Reached(rules, chain, patience, t.starts, j) {
        NobodyLeft(rules, chain, patience, t, i, j);
      }
      GaveUp(rules, chain, patience, t);
    } else {
      assert LeftAt(rules, chain, t.starts, i) && Reached(rules, chain, patience, t.starts, i);
      hide S.OneEntry, StepError, Due, LeftAt, Reached, PassesOn, Ending, CallerGone;
    }
  }

  lemma {:induction false} RunAnswered(rules: Rules, chain: seq<S.Entry>, patience: S.Patience, i: nat, t: Tally)
    requires AtEntry(rules, chain, patience, t, i) && Settled(rules, chain, patience, t, i)
    ensures Answered(rules, chain, patience, S.Run(rules, chain, patience, i, t))
    decreases |chain| - i
  {
    if i == |chain| {
      ChainExhausted(rules, chain, patience, t);
    } else {
      var next := S.OneEntry(rules, chain[i], patience, t, i);
      EntryStep(rules, chain, patience, t, i);
      if next.Over? {
        if S.Result(next).starts == t.starts {
          NoStartEnds(rules, chain, patience, t, i);
        } else {
          StartEnds(rules, chain, patience, t, i);
        }
      } else {
        SettledStable(rules, chain, patience, t, S.Result(next).starts, i);
        OneMoreSettled(rules, chain, patience, t, S.Result(next), i);
        hide S.OneEntry, AtEntry, Settled, Answered, StepError;
        RunAnswered(rules, chain, patience, i + 1, next.tally);
      }
    }
  }

  /** The fallback of streams, both ways: over every chain, script and caller, an entry is started if and only if it
      is usable, no cap was used up by the starts before it, admission granted it, the caller had not gone, and every
      start before it delivered nothing and failed softly; the stream completes, is closed or lets an exception escape
      exactly as its last start says, and otherwise fails with the error of its last failing step. */
  lemma StreamChoosesExactly(rules: Rules, chain: seq<S.Entry>, patience: S.Patience)
    ensures var o := S.StreamDispatch(rules, chain, patience);
      StartedAsDue(rules, chain, patience, o.tally.starts) && EndsAs(rules, chain, patience, o.tally.starts, o.verdict)
  {
    assert P.Counted(rules, FRESH);
    RunAnswered(rules, chain, patience, 0, FRESH);
  }

  // ---------------------------------------------------------------- blackouts

  /** The blackout a granted attempt causes, by what ends it. */
  ghost predicate Blackens(met: S.Attempt, patience: S.Patience, wholeFamily: bool) {
    var ending := Ending(met, patience);
    ending.Some? && E.Blackens(Attempt.NotStarted(ending.value), wholeFamily)
  }

  /** Entry `i` blacks itself out: it was started and ended so, or it was due and its request for admission timed out. */
  ghost predicate BlackStep(rules: Rules, chain: seq<S.Entry>, patience: S.Patience, starts: seq<Start>, i: nat, wholeFamily: bool)
    requires i < |chain|
  {
    || (Start(i, 1, chain[i].family) in starts && Blackens(chain[i].attempt, patience, wholeFamily))
    || (chain[i].attempt == S.AskFailed(true) && !wholeFamily && Reached(rules, chain, patience, starts, i)
        && !OutOfStarts(rules, Before(starts, i)) && !OutOfFamily(rules, chain[i], Before(starts, i)))
  }

  ghost predicate BlackedOut(rules: Rules, chain: seq<S.Entry>, patience: S.Patience, t: Tally, i: nat) {
    forall j: nat, whole: bool :: Suppressed(j, whole) in t.trace <==> j < i && j < |chain| && BlackStep(rules, chain, patience, t.starts, j, whole)
  }

  /** A stream suppresses as a synchronous attempt does, whose provider errors are never output rejections. */
  lemma SuppressionIs(problem: Problem, i: nat, j: nat, whole: bool)
    ensures Suppressed(j, whole) in S.StreamSuppression(problem, i) <==> j == i && E.Blackens(Attempt.NotStarted(problem), whole)
  {}

  /** What one entry adds to the history. */
  lemma EntryBlacks(rules: Rules, e: S.Entry, patience: S.Patience, t: Tally, i: nat, j: nat, whole: bool)
    requires P.Counted(rules, t)
    ensures var t' := S.Result(S.OneEntry(rules, e, patience, t, i));
            var tried := Usable(e) && !OutOfStarts(rules, t.starts) && !OutOfFamily(rules, e, t.starts);
      Suppressed(j, whole) in t'.trace <==>
        || Suppressed(j, whole) in t.trace
        || (j == i && tried && e.attempt.Granted() && Blackens(e.attempt, patience, whole))
        || (j == i && tried && e.attempt == S.AskFailed(true) && !whole)
  {
    assert Count(t.families, e.family) == P.CountFamily(t.starts, e.family) && t.started == |t.starts|;
    if e.attempt.Granted() {
      EndingIsStopper(e.attempt, patience);
      GrantedBlacks(e, patience, t, i, j, whole);
    } else if e.attempt.AskFailed? {
      SuppressionIs(AskProblem(e.attempt.timedOut), i, j, whole);
      E.TimeoutBlackens(whole);
    }
    hide S.Delivered, S.Stopper, S.Abandoned, S.StreamSuppression, S.Failed, S.LeftOpen, S.Leasing, Closed, P.Counted, Blackens, E.Blackens, Ending;
  }

  lemma GrantedBlacks(e: S.Entry, patience: S.Patience, t: Tally, i: nat, j: nat, whole: bool)
    requires e.attempt.Granted()
    ensures var r, stopper := S.Leasing(t, i, e.family, e.attempt.Flow?), S.Stopper(e.attempt, patience);
            var received := S.Delivered(e.attempt, patience);
            var black := Suppressed(j, whole) in t.trace || (j == i && Blackens(e.attempt, patience, whole));
      && (Suppressed(j, whole) in S.Result(S.LeftOpen(r, i, received, stopper)).trace <==> black)
      && (stopper.Some? ==> (Suppressed(j, whole) in S.Result(S.Failed(r, i, received, e.attempt.Flow?, stopper.value)).trace <==> black))
      && (stopper.None? ==> (Suppressed(j, whole) in Closed(r, i, 1, e.attempt.Flow?).trace <==> black))
  {
    EndingIsStopper(e.attempt, patience);
    if S.Stopper(e.attempt, patience).Some? {
      SuppressionIs(S.Stopper(e.attempt, patience).value, i, j, whole);
    }
    hide S.Delivered, S.Stopper, S.StreamSuppression, S.MayFallBack, E.Blackens, Ending, FallbackEligible;
  }

  lemma BlackStepStable(rules: Rules, chain: seq<S.Entry>, patience: S.Patience, earlier: seq<Start>, later: seq<Start>, i: nat, j: nat, whole: bool)
    requires P.Grown(earlier, later, i, 1) && j < i && j < |chain|
    ensures BlackStep(rules, chain, patience, later, j, whole) == BlackStep(rules, chain, patience, earlier, j, whole)
  {
    StepStable(rules, chain, patience, earlier, later, i, j);
    BeforeStable(earlier, later, i, j);
    hide Blackens, Reached, Before, OutOfStarts, OutOfFamily;
  }

  lemma BlackHere(rules: Rules, chain: seq<S.Entry>, patience: S.Patience, t: Tally, i: nat, whole: bool)
    requires AtEntry(rules, chain, patience, t, i) && i < |chain|
    ensures var starts := S.Result(S.OneEntry(rules, chain[i], patience, t, i)).starts;
            var e := chain[i];
            var tried := Usable(e) && !OutOfStarts(rules, t.starts) && !OutOfFamily(rules, e, t.starts);
      BlackStep(rules, chain, patience, starts, i, whole) <==>
        tried && ((e.attempt.Granted() && Blackens(e.attempt, patience, whole)) || (e.attempt == S.AskFailed(true) && !whole))
  {
    var starts := S.Result(S.OneEntry(rules, chain[i], patience, t, i)).starts;
    EntryStep(rules, chain, patience, t, i);
    ReachedHere(rules, chain, patience, t, i, starts);
    hide S.OneEntry, S.Result, Blackens, Reached, Before, OutOfStarts, OutOfFamily, AtEntry, StepError;
  }

  lemma EntryBlackedOut(rules: Rules, chain: seq<S.Entry>, patience: S.Patience, t: Tally, i: nat)
    requires AtEntry(rules, chain, patience, t, i) && i < |chain| && BlackedOut(rules, chain, patience, t, i)
    ensures BlackedOut(rules, chain, patience, S.Result(S.OneEntry(rules, chain[i], patience, t, i)), i + 1)
  {
    var t' := S.Result(S.OneEntry(rules, chain[i], patience, t, i));
    EntryStep(rules, chain, patience, t, i);
    forall j: nat, whole: bool
      ensures Suppressed(j, whole) in t'.trace <==> j < i + 1 && j < |chain| && BlackStep(rules, chain, patience, t'.starts, j, whole)
    {
      EntryBlacks(rules, chain[i], patience, t, i, j, whole);
      BlackHere(rules, chain, patience, t, i, whole);
      if j < i && j < |chain| {
        BlackStepStable(rules, chain, patience, t.starts, t'.starts, i, j, whole);
      }
      hide S.OneEntry, S.Result, BlackStep, Blackens, OutOfStarts, OutOfFamily, AtEntry;
    }
  }

  lemma {:induction false} RunBlacks(rules: Rules, chain: seq<S.Entry>, patience: S.Patience, i: nat, t: Tally)
    requires AtEntry(rules, chain, patience, t, i) && BlackedOut(rules, chain, patience, t, i)
    ensures BlackedOut(rules, chain, patience, S.Run(rules, chain, patience, i, t).tally, |chain|)
    decreases |chain| - i
  {
    if i < |chain| {
      var next := S.OneEntry(rules, chain[i], patience, t, i);
      EntryBlackedOut(rules, chain, patience, t, i);
      EntryStep(rules, chain, patience, t, i);
      if next.Over? {
        forall j: nat, whole: bool | i < j < |chain| ensures !BlackStep(rules, chain, patience, next.outcome.tally.starts, j, whole) {
          NoneBlackAfter(rules, chain, patience, t, i, j, whole);
        }
        hide S.OneEntry, BlackStep, AtEntry;
      } else {
        hide S.OneEntry, AtEntry, BlackedOut, StepError;
        RunBlacks(rules, chain, patience, i + 1, next.tally);
      }
    }
  }

  lemma NoneBlackAfter(rules: Rules, chain: seq<S.Entry>, patience: S.Patience, t: Tally, i: nat, j: nat, whole: bool)
    requires AtEntry(rules, chain, patience, t, i) && i < j < |chain| && S.OneEntry(rules, chain[i], patience, t, i).Over?
    ensures !BlackStep(rules, chain, patience, S.Result(S.OneEntry(rules, chain[i], patience, t, i)).starts, j, whole)
  {
    var starts := S.Result(S.OneEntry(rules, chain[i], patience, t, i)).starts;
    WhyOver(rules, chain, patience, t, i);
    EntryStep(rules, chain, patience, t, i);
    NothingAfter(rules, chain, patience, t, i, j);
    AllEarlier(starts, i, j);
    hide S.OneEntry, S.Result, PassesOn, LeftAt, Before, Blackens, OutOfFamily, OutOfStarts, AtEntry, StepError;
  }

  /** Which tuples a stream blacks out: entry `i`, alone or with its family, exactly if it was started and ended in a
      provider error or a timeout that asks for that, or its request for admission timed out. */
  lemma BlackoutsExactly(rules: Rules, chain: seq<S.Entry>, patience: S.Patience, i: nat, wholeFamily: bool)
    ensures var t := S.StreamDispatch(rules, chain, patience).tally;
      Suppressed(i, wholeFamily) in t.trace <==> i < |chain| && BlackStep(rules, chain, patience, t.starts, i, wholeFamily)
  {
    assert P.Counted(rules, FRESH);
    RunBlacks(rules, chain, patience, 0, FRESH);
  }
}
