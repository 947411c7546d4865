/** Reserve, execute, then store or release one idempotency key (`idempotency_*` in gpucall/app_helpers.py and
    the protocol of `task_sync` in gpucall/app.py), over any number of requests and gateway processes.

    The store's operations are atomic and its entries neither expire nor are evicted. Requests of different
    processes do not share the per-key lock, so nothing here relies on it.
  */
module Idempotency {
  import opened Wrappers

  datatype Row = Pending(hash: int) | Stored(hash: int, content: int)

  datatype Phase =
    | Arrived(hash: int)
    | Cleared(hash: int)                   // the lookup found nothing
    | Executing(hash: int)                 // reserved, not yet stored or released
    | Replayed(hash: int, content: int)
    | Mismatch(hash: int)                  // 409: the key was used with another body
    | Busy(hash: int)                      // 409: the key is being processed
    | Succeeded(hash: int, content: int)
    | Failed(hash: int)
    | Abandoned(hash: int)                 // ended without its release having run

  /** Which `except` clause of the handler an execution ends in. */
  datatype Failure = Governance | Http | BadValue | TupleFailure | TenantBudget | Other

  /** The clauses that refund the budget before they release the key. */
  predicate RefundsFirst(failure: Failure) { failure in {Http, BadValue, TupleFailure, Other} }

  datatype State = State(row: Option<Row>, phases: map<nat, Phase>)

  const START := State(None, map[])

  datatype Step =
    | Arrive(id: nat, hash: int)
    | Lookup(id: nat)
    | Reserve(id: nat)
    | Succeed(id: nat, content: int)
    | Fail(id: nat, failure: Failure, refundRaises: bool, releaseRaises: bool)
    | Abandon(id: nat)                     // cancelled, or its process died: no `except` clause sees it

  // ---------------------------------------------------------------- the store

  function Reserved(row: Option<Row>, hash: int): (Option<Row>, bool) {
    if row.Some? then (row, false) else (Some(Pending(hash)), true)
  }

  function Set(row: Option<Row>, hash: int, content: int): Option<Row> {
    if row.None? || row == Some(Pending(hash)) then Some(Stored(hash, content)) else row
  }

  function Released(row: Option<Row>, hash: int): Option<Row> {
    if row == Some(Pending(hash)) then None else row
  }

  function Answer(row: Option<Row>, hash: int): Phase {
    match row
    case None => Cleared(hash)
    case Some(r) => if r.hash != hash then Mismatch(hash) else if r.Pending? then Busy(hash) else Replayed(hash, r.content)
  }

  /** Storing and releasing concern the caller's own pending row alone: another's row, and a stored result, stay; and
      what was stored is not taken away by a release. */
  lemma OthersRowStays(row: Option<Row>, hash: int, content: int)
    ensures row.Some? && (row.value.Stored? || row.value.hash != hash) ==> Set(row, hash, content) == row && Released(row, hash) == row
    ensures Released(Set(row, hash, content), hash) == Set(row, hash, content)
    ensures row.None? ==> Released(row, hash) == row
    ensures Released(Reserved(row, hash).0, hash) == if row == Some(Pending(hash)) then None else row
  {}

  // ---------------------------------------------------------------- runs

  predicate Enabled(s: State, step: Step) {
    match step
    case Arrive(id, _) => id !in s.phases
    case Lookup(id) => id in s.phases && s.phases[id].Arrived?
    case Reserve(id) => id in s.phases && s.phases[id].Cleared?
    case Succeed(id, _) => id in s.phases && s.phases[id].Executing?
    case Fail(id, _, _, _) => id in s.phases && s.phases[id].Executing?
    case Abandon(id) => id in s.phases && s.phases[id].Executing?
  }

  function Act(s: State, step: Step): State
    requires Enabled(s, step)
  {
    match step
    case Arrive(id, hash) => s.(phases := s.phases[id := Arrived(hash)])
    case Lookup(id) => s.(phases := s.phases[id := Answer(s.row, s.phases[id].hash)])
    case Reserve(id) =>
      var hash := s.phases[id].hash;
      var (row, won) := Reserved(s.row, hash);
      State(row, s.phases[id := if won then Executing(hash) else Busy(hash)])
    case Succeed(id, content) =>
      var hash := s.phases[id].hash;
      State(Set(s.row, hash, content), s.phases[id := Succeeded(hash, content)])
    case Fail(id, failure, refundRaises, releaseRaises) =>
      var hash := s.phases[id].hash;
      if (RefundsFirst(failure) && refundRaises) || releaseRaises then s.(phases := s.phases[id := Abandoned(hash)])
      else State(Released(s.row, hash), s.phases[id := Failed(hash)])
    case Abandon(id) => s.(phases := s.phases[id := Abandoned(s.phases[id].hash)])
  }

  /** What a request does next: it looks the key up, tries to reserve it if nothing was found, and an execution ends in
      one way or another; every other answer is final. */
  lemma PhaseSteps(s: State, id: nat, content: int, failure: Failure, refundRaises: bool, releaseRaises: bool)
    requires id in s.phases
    ensures var p := s.phases[id];
      && (Enabled(s, Lookup(id)) <==> p == Arrived(p.hash))
      && (Enabled(s, Reserve(id)) <==> p == Cleared(p.hash))
      && (Enabled(s, Succeed(id, content)) <==> p == Executing(p.hash))
      && (Enabled(s, Fail(id, failure, refundRaises, releaseRaises)) <==> p == Executing(p.hash))
      && (Enabled(s, Abandon(id)) <==> p == Executing(p.hash))
  {}

  predicate Legal(s: State, steps: seq<Step>)
    decreases |steps|
  {
    steps != [] ==> Enabled(s, steps[0]) && Legal(Act(s, steps[0]), steps[1..])
  }

  function Play(s: State, steps: seq<Step>): State
    requires Legal(s, steps)
    decreases |steps|
  {
    if steps == [] then s else Play(Act(s, steps[0]), steps[1..])
  }

  /** Who holds the reservation: executing, or ended without a release. */
  predicate Holds(p: Phase) { p.Executing? || p.Abandoned? }

  /** What is known of one request given the row. */
  predicate PhaseOk(row: Option<Row>, p: Phase) {
    && (Holds(p) ==> row == Some(Pending(p.hash)))
    && (p.Succeeded? || p.Replayed? ==> row == Some(Stored(p.hash, p.content)))
  }

  ghost predicate OneHolder(s: State) {
    forall a, b | a in s.phases && b in s.phases && Holds(s.phases[a]) && Holds(s.phases[b]) :: a == b
  }

  ghost predicate OneSuccess(s: State) {
    forall a, b | a in s.phases && b in s.phases && s.phases[a].Succeeded? && s.phases[b].Succeeded? :: a == b
  }

  /** A row always has an origin: its holder, or the execution that was stored. */
  predicate Origin(row: Option<Row>, p: Phase) {
    row.Some? && if row.value.Pending? then Holds(p) else p.Succeeded?
  }

  ghost predicate Inv(s: State) {
    && (forall id | id in s.phases :: PhaseOk(s.row, s.phases[id]))
    && OneHolder(s) && OneSuccess(s)
    && (s.row.Some? ==> exists id :: id in s.phases && Origin(s.row, s.phases[id]))
  }

  lemma PhaseKept(s: State, step: Step, id: nat)
    requires Inv(s) && Enabled(s, step) && id in Act(s, step).phases
    ensures PhaseOk(Act(s, step).row, Act(s, step).phases[id])
    ensures id != step.id ==> id in s.phases && Act(s, step).phases[id] == s.phases[id]
    ensures Act(s, step).row.Some? && id == step.id && Act(s, step).row != s.row ==> Origin(Act(s, step).row, Act(s, step).phases[id])
    ensures id == step.id && Act(s, step).row == s.row && id in s.phases && Origin(s.row, s.phases[id]) ==> Origin(s.row, Act(s, step).phases[id])
    ensures id == step.id && id in s.phases && Holds(Act(s, step).phases[id]) && !Holds(s.phases[id]) ==> s.row.None?
    ensures id == step.id && Act(s, step).phases[id].Succeeded? ==> id in s.phases && Holds(s.phases[id])
    ensures id == step.id && id !in s.phases ==> !Holds(Act(s, step).phases[id])
  {
    assert id in s.phases ==> PhaseOk(s.row, s.phases[id]);
    assert step.id in s.phases ==> PhaseOk(s.row, s.phases[step.id]);
    if id != step.id && step.id in s.phases && Holds(s.phases[step.id]) {
      assert !Holds(s.phases[id]);
    }
    hide Inv, OneHolder, OneSuccess;
  }

  lemma StepKeepsInv(s: State, step: Step)
    requires Inv(s) && Enabled(s, step)
    ensures Inv(Act(s, step))
    ensures s.row.Some? && s.row.value.Stored? ==> Act(s, step).row == s.row
  {
    var s' := Act(s, step);
    assert forall id | id in s.phases :: id in s'.phases && PhaseOk(s.row, s.phases[id]);
    forall id | id in s'.phases ensures PhaseOk(s'.row, s'.phases[id]) { PhaseKept(s, step, id); }
    assert step.id in s'.phases;
    PhaseKept(s, step, step.id);
    StoredStays(s, step);
    forall a, b | a in s'.phases && b in s'.phases && Holds(s'.phases[a]) && Holds(s'.phases[b]) ensures a == b {
      PhaseKept(s, step, a);
      PhaseKept(s, step, b);
      hide Act, Enabled;
    }
    forall a, b | a in s'.phases && b in s'.phases && s'.phases[a].Succeeded? && s'.phases[b].Succeeded? ensures a == b {
      PhaseKept(s, step, a);
      PhaseKept(s, step, b);
      hide Act, Enabled;
    }
    hide Act, Enabled;
    if s'.row.Some? && s'.row == s.row {
      var id :| id in s.phases && Origin(s.row, s.phases[id]);
      PhaseKept(s, step, id);
      assert Origin(s'.row, s'.phases[id]);
    }
  }

  lemma StoredStays(s: State, step: Step)
    requires Inv(s) && Enabled(s, step)
    ensures s.row.Some? && s.row.value.Stored? ==> Act(s, step).row == s.row
  {
    assert step.id in s.phases ==> PhaseOk(s.row, s.phases[step.id]);
    hide Inv;
  }

  lemma {:induction false} RunKeepsInv(s: State, steps: seq<Step>)
    requires Inv(s) && Legal(s, steps)
    ensures Inv(Play(s, steps))
    ensures s.row.Some? && s.row.value.Stored? ==> Play(s, steps).row == s.row
    decreases |steps|
  {
    if steps != [] {
      StepKeepsInv(s, steps[0]);
      hide Inv, Act, Enabled;
      RunKeepsInv(Act(s, steps[0]), steps[1..]);
    }
  }

  /** Over every run and any number of processes: one key never has two executions in flight, at most one
      execution is ever stored, and every replay returns exactly what that execution returned to a request with
      the same body. */
  lemma AtMostOneExecution(steps: seq<Step>, a: nat, b: nat)
    requires Legal(START, steps)
    requires a in Play(START, steps).phases && b in Play(START, steps).phases
    ensures var s := Play(START, steps); var p, q := s.phases[a], s.phases[b];
      && (p.Executing? && q.Executing? ==> a == b)
      && (p.Succeeded? && q.Succeeded? ==> a == b)
      && (p.Replayed? && q.Succeeded? ==> p.hash == q.hash && p.content == q.content)
      && (p.Replayed? ==> exists id :: id in s.phases && s.phases[id] == Succeeded(p.hash, p.content))
  {
    RunKeepsInv(START, steps);
    var s := Play(START, steps);
    if s.phases[a].Replayed? {
      var id :| id in s.phases && Origin(s.row, s.phases[id]);
      assert PhaseOk(s.row, s.phases[a]) && PhaseOk(s.row, s.phases[id]);
    }
    assert PhaseOk(s.row, s.phases[a]) && PhaseOk(s.row, s.phases[b]);
  }

  /** After a stored success nothing executes again, whatever happens next; a request that arrives later is
      answered with the stored content if its body is the same, and refused otherwise. */
  lemma NeverExecutesAgain(before: seq<Step>, after: seq<Step>, id: nat)
    requires Legal(START, before) && Play(START, before).row.Some? && Play(START, before).row.value.Stored?
    requires Legal(Play(START, before), after)
    ensures var row, s := Play(START, before).row, Play(Play(START, before), after);
      && s.row == row
      && (forall other | other in s.phases :: !s.phases[other].Executing?)
      && (id in s.phases && s.phases[id].Arrived? ==>
            Act(s, Lookup(id)).phases[id] == if s.phases[id].hash == row.value.hash then Replayed(row.value.hash, row.value.content)
                                             else Mismatch(s.phases[id].hash))
  {
    RunKeepsInv(START, before);
    RunKeepsInv(Play(START, before), after);
    var s := Play(Play(START, before), after);
    forall other | other in s.phases ensures !s.phases[other].Executing? {
      assert PhaseOk(s.row, s.phases[other]);
    }
  }

  /** When a key is pending: exactly while its one holder executes, or once that holder has ended without its
      release having run. */
  lemma PendingIff(steps: seq<Step>)
    requires Legal(START, steps)
    ensures var s := Play(START, steps);
      s.row.Some? && s.row.value.Pending? <==> exists id :: id in s.phases && (s.phases[id].Executing? || s.phases[id].Abandoned?)
  {
    RunKeepsInv(START, steps);
    var s := Play(START, steps);
    if id :| id in s.phases && (s.phases[id].Executing? || s.phases[id].Abandoned?) {
      assert PhaseOk(s.row, s.phases[id]);
    }
  }

  /** The ways an execution ends without its release: it is cancelled, its handler's refund raises first, or the
      release itself raises. */
  predicate SkipsRelease(step: Step) {
    step.Abandon? || (step.Fail? && ((!step.failure.Governance? && !step.failure.TenantBudget? && step.refundRaises) || step.releaseRaises))
  }

  ghost predicate SomeAbandoned(s: State) { exists id :: id in s.phases && s.phases[id].Abandoned? }

  lemma StepAbandons(s: State, step: Step)
    requires Enabled(s, step)
    ensures SomeAbandoned(Act(s, step)) <==> SomeAbandoned(s) || SkipsRelease(step)
  {
    var s' := Act(s, step);
    assert forall id | id in s.phases && id != step.id :: id in s'.phases && s'.phases[id] == s.phases[id];
    assert step.id in s'.phases && (SkipsRelease(step) <==> s'.phases[step.id].Abandoned?);
    assert step.id in s.phases ==> !s.phases[step.id].Abandoned?;
    assert forall id | id in s'.phases && id != step.id :: id in s.phases;
    hide Act, Enabled, SkipsRelease;
  }

  lemma {:induction false} RunAbandons(s: State, steps: seq<Step>)
    requires Legal(s, steps)
    ensures SomeAbandoned(Play(s, steps)) <==> SomeAbandoned(s) || exists step :: step in steps && SkipsRelease(step)
    decreases |steps|
  {
    if steps != [] {
      StepAbandons(s, steps[0]);
      RunAbandons(Act(s, steps[0]), steps[1..]);
      hide Act, Enabled, SomeAbandoned, SkipsRelease;
      assert steps == [steps[0]] + steps[1..];
    }
  }

  /** Over every run: when no execution is left in flight, the key is stuck if and only if at some step an
      execution was cancelled, its handler's refund raised before the release, or the release raised. */
  lemma StuckIffReleaseSkipped(steps: seq<Step>)
    requires Legal(START, steps) && forall id | id in Play(START, steps).phases :: !Play(START, steps).phases[id].Executing?
    ensures var s := Play(START, steps);
      s.row.Some? && s.row.value.Pending? <==> exists step :: step in steps && SkipsRelease(step)
  {
    PendingIff(steps);
    RunAbandons(START, steps);
  }

  /** A failure whose refund raises: nothing was cancelled, and the key is stuck. */
  lemma RaisingRefundBlocks(hash: int, failure: Failure)
    requires !failure.Governance? && !failure.TenantBudget?
    ensures var steps := [Arrive(0, hash), Lookup(0), Reserve(0), Fail(0, failure, true, false)];
      Legal(START, steps) && Play(START, steps) == State(Some(Pending(hash)), map[0 := Abandoned(hash)])
  {
    var steps := [Arrive(0, hash), Lookup(0), Reserve(0), Fail(0, failure, true, false)];
    var s1 := Act(START, steps[0]);
    var s2 := Act(s1, steps[1]);
    var s3 := Act(s2, steps[2]);
    var s4 := Act(s3, steps[3]);
    assert s4 == State(Some(Pending(hash)), map[0 := Abandoned(hash)]);
    assert steps[1..][1..] == steps[2..] && steps[2..][1..] == steps[3..] && steps[3..][1..] == [];
    assert Legal(s4, []) && Play(s4, []) == s4;
    assert Legal(s3, steps[3..]) && Play(s3, steps[3..]) == s4;
    assert Legal(s2, steps[2..]) && Play(s2, steps[2..]) == s4;
    assert Legal(s1, steps[1..]) && Play(s1, steps[1..]) == s4;
  }

  lemma StepKeepsAbandoned(s: State, step: Step, id: nat)
    requires Inv(s) && Enabled(s, step) && id in s.phases && s.phases[id].Abandoned?
    ensures id in Act(s, step).phases && Act(s, step).phases[id] == s.phases[id] && Act(s, step).row == s.row
  {
    assert PhaseOk(s.row, s.phases[id]);
    if step.id in s.phases {
      assert PhaseOk(s.row, s.phases[step.id]);
    }
  }

  /** An abandoned reservation blocks the key for the rest of every run: no request executes or succeeds. */
  lemma {:induction false} AbandonedBlocksForever(s: State, steps: seq<Step>, id: nat)
    requires Inv(s) && Legal(s, steps) && id in s.phases && s.phases[id].Abandoned?
    ensures var end := Play(s, steps);
      && end.row == Some(Pending(s.phases[id].hash))
      && (forall other | other in end.phases :: !end.phases[other].Executing? && !end.phases[other].Succeeded? && !end.phases[other].Replayed?)
    decreases |steps|
  {
    if steps == [] {
      forall other | other in s.phases ensures !s.phases[other].Executing? && !s.phases[other].Succeeded? && !s.phases[other].Replayed? {
        assert PhaseOk(s.row, s.phases[other]) && PhaseOk(s.row, s.phases[id]);
      }
    } else {
      StepKeepsInv(s, steps[0]);
      StepKeepsAbandoned(s, steps[0], id);
      hide Inv, Act, Enabled;
      AbandonedBlocksForever(Act(s, steps[0]), steps[1..], id);
    }
  }

  // ---------------------------------------------------------------- the store's table

  class IdempotencyStore {
    var rows: map<string, Row>

    function RowOf(key: string): Option<Row> reads this {
      if key in rows then Some(rows[key]) else None
    }

    constructor ()
      ensures rows == map[]
    {
      rows := map[];
    }

    method ReserveKey(key: string, hash: int) returns (won: bool)
      modifies this
      ensures (RowOf(key), won) == Reserved(old(RowOf(key)), hash)
      ensures forall other | other != key :: RowOf(other) == old(RowOf(other))
    {
      won := key !in rows;
      if won {
        rows := rows[key := Pending(hash)];
      }
    }

    method StoreResult(key: string, hash: int, content: int)
      modifies this
      ensures RowOf(key) == Set(old(RowOf(key)), hash, content)
      ensures forall other | other != key :: RowOf(other) == old(RowOf(other))
    {
      if key !in rows || (rows[key].Pending? && rows[key].hash == hash) {
        rows := rows[key := Stored(hash, content)];
      }
    }

    method ReleaseKey(key: string, hash: int)
      modifies this
      ensures RowOf(key) == Released(old(RowOf(key)), hash)
      ensures forall other | other != key :: RowOf(other) == old(RowOf(other))
    {
      if key in rows && rows[key].hash == hash && rows[key].Pending? {
        rows := rows - {key};
      }
    }
  }
}
