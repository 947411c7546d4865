/** The per-key lock whose entries are reclaimed (`idempotency_execution_lock` in gpucall/app_helpers.py).

    The guard is never held across a suspension, so the sections under it are atomic. The lock itself is the
    event loop's: `release` wakes the first waiter but leaves the lock open until that waiter resumes, a new
    arrival may pass waiters only if all of them are cancelled, and a cancelled waiter hands the wake-up on.

    Lock objects have identities and outlive their dictionary entry: a coroutine keeps the object it looked up
    in its local variable, whatever becomes of the entry. That the object it waits on or holds is still the one
    in the dictionary is proved, not built in.
  */
module KeyedLock {
  import opened Wrappers

  datatype Waiting = Asleep | Woken | CancelledAsleep | CancelledWoken

  datatype Waiter = Waiter(task: nat, state: Waiting)

  /** One lock object. */
  datatype Lock = Lock(locked: bool, waiters: seq<Waiter>)

  const FREE := Lock(false, [])

  /** One key: the lock objects ever made for it, the one its dictionary entry refers to, the object each
      coroutine has in its local variable `lock`, and the coroutines inside the guarded body. */
  datatype State = State(heap: map<nat, Lock>, entry: Option<nat>, locals: map<nat, nat>, inside: set<nat>)

  const START := State(map[], None, map[], {})

  datatype Step =
    | Enter(task: nat, made: nat)     // `made` is the object `setdefault` is given
    | Cancel(task: nat)               // a task waiting for its lock is cancelled
    | Resume(task: nat)               // a task woken or cancelled while waiting runs again
    | Leave(task: nat)                // the body ends, in any way

  function Position(waiters: seq<Waiter>, task: nat): (k: nat)
    ensures k <= |waiters|
    ensures k < |waiters| ==> waiters[k].task == task
    ensures forall j | 0 <= j < k :: waiters[j].task != task
  {
    if waiters == [] || waiters[0].task == task then 0 else 1 + Position(waiters[1..], task)
  }

  function WakeFirst(waiters: seq<Waiter>): seq<Waiter> {
    if waiters != [] && waiters[0].state == Asleep then waiters[0 := waiters[0].(state := Woken)] else waiters
  }

  predicate Passable(lock: Lock) {
    !lock.locked && forall k | 0 <= k < |lock.waiters| :: lock.waiters[k].state == CancelledAsleep
  }

  function Cancelled(w: Waiter): Waiter {
    w.(state := match w.state case Asleep => CancelledAsleep case Woken => CancelledWoken case other => other)
  }

  function Waits(lock: Lock, task: nat): bool { Position(lock.waiters, task) < |lock.waiters| }

  // ---------------------------------------------------------------- one lock object

  /** `acquire`, up to where it returns or suspends. */
  function Acquired(lock: Lock, task: nat): Lock {
    if Passable(lock) then lock.(locked := true) else lock.(waiters := lock.waiters + [Waiter(task, Asleep)])
  }

  function CancelWaiter(lock: Lock, task: nat): Lock
    requires Waits(lock, task)
  {
    var k := Position(lock.waiters, task);
    lock.(waiters := lock.waiters[k := Cancelled(lock.waiters[k])])
  }

  /** The rest of `acquire` after the wait. */
  function Resumed(lock: Lock, task: nat): Lock
    requires Waits(lock, task)
  {
    var k := Position(lock.waiters, task);
    var others := lock.waiters[..k] + lock.waiters[k + 1..];
    if lock.waiters[k].state == Woken then Lock(true, others)
    else if lock.locked then Lock(true, others)
    else Lock(false, WakeFirst(others))
  }

  function Released(lock: Lock): Lock { Lock(false, WakeFirst(lock.waiters)) }

  // ---------------------------------------------------------------- runs

  /** What every program point needs; references to lock objects are never dangling. */
  predicate Enabled(s: State, step: Step) {
    match step
    case Enter(t, made) => t !in s.locals && made !in s.heap && (s.entry.Some? ==> s.entry.value in s.heap)
    case Cancel(t) => t in s.locals && s.locals[t] in s.heap && Waits(s.heap[s.locals[t]], t)
    case Resume(t) =>
      && t in s.locals && s.locals[t] in s.heap && Waits(s.heap[s.locals[t]], t)
      && var lock := s.heap[s.locals[t]]; lock.waiters[Position(lock.waiters, t)].state != Asleep
    case Leave(t) => t in s.inside && t in s.locals && s.locals[t] in s.heap
  }

  function Act(s: State, step: Step): State
    requires Enabled(s, step)
  {
    match step
    case Enter(t, made) =>
      var id := if s.entry.Some? then s.entry.value else made;
      var lock := if s.entry.Some? then s.heap[s.entry.value] else FREE;
      State(s.heap[id := Acquired(lock, t)], Some(id), s.locals[t := id], if Passable(lock) then s.inside + {t} else s.inside)
    case Cancel(t) =>
      s.(heap := s.heap[s.locals[t] := CancelWaiter(s.heap[s.locals[t]], t)])
    case Resume(t) =>
      var id := s.locals[t];
      var lock := s.heap[id];
      var woken := lock.waiters[Position(lock.waiters, t)].state == Woken;
      State(s.heap[id := Resumed(lock, t)], s.entry,
            if woken then s.locals else s.locals - {t}, if woken then s.inside + {t} else s.inside)
    case Leave(t) =>
      var id := s.locals[t];
      var lock := Released(s.heap[id]);
      State(s.heap[id := lock], if s.entry == Some(id) && !lock.locked && lock.waiters == [] then None else s.entry,
            s.locals - {t}, s.inside - {t})
  }

  predicate Legal(s: State, steps: seq<Step>)
    decreases |steps|
  {
    steps != [] ==> Enabled(s, steps[0]) && Legal(Act(s, steps[0]), steps[1..])
  }

  function Play(s: State, steps: seq<Step>): State
    requires Legal(s, steps)
    decreases |steps|
  {
    if steps == [] then s else Play(Act(s, steps[0]), steps[1..])
  }

  // ---------------------------------------------------------------- invariant

  predicate Awake(w: Waiter) { w.state == Woken || w.state == CancelledWoken }

  /** No wake-up is owed: an open lock with waiters has a first waiter that will run, and only that one. */
  predicate LockOk(lock: Lock) {
    && (forall k | 0 <= k < |lock.waiters| && Awake(lock.waiters[k]) :: k == 0 && !lock.locked)
    && (!lock.locked && lock.waiters != [] ==> lock.waiters[0].state != Asleep)
    && (forall j, k | 0 <= j < k < |lock.waiters| :: lock.waiters[j].task != lock.waiters[k].task)
  }

  /** The tasks with this object in their local variable are its one holder and its waiters. */
  ghost predicate Users(lock: Lock, users: set<nat>, inside: set<nat>) {
    && inside <= users
    && (lock.locked <==> inside != {})
    && (forall a, b | a in inside && b in inside :: a == b)
    && (forall t :: t in users && t !in inside <==> Waits(lock, t))
  }

  ghost predicate Inv(s: State) {
    && (s.entry.Some? ==> s.entry.value in s.heap)
    && (forall t | t in s.locals :: s.entry == Some(s.locals[t]))
    && (s.entry.Some? ==> LockOk(s.heap[s.entry.value]) && Users(s.heap[s.entry.value], s.locals.Keys, s.inside))
    && (s.entry.None? ==> s.inside == {})
    && (forall id | id in s.heap && s.entry != Some(id) :: s.heap[id] == FREE)
  }

  /** What a task can do, from where it is: one that does not use the key may enter; one inside leaves; one that waits
      may be cancelled, and runs again once it was woken or cancelled. */
  lemma WhoCanStep(s: State, t: nat, made: nat)
    requires Inv(s)
    ensures Enabled(s, Enter(t, made)) <==> t !in s.locals && made !in s.heap
    ensures Enabled(s, Leave(t)) <==> t in s.inside
    ensures Enabled(s, Cancel(t)) <==> t in s.locals && t !in s.inside
    ensures Enabled(s, Resume(t)) <==>
      t in s.locals && t !in s.inside && s.entry.Some?
      && exists k :: 0 <= k < |s.heap[s.entry.value].waiters| && s.heap[s.entry.value].waiters[k].task == t
                     && s.heap[s.entry.value].waiters[k].state != Asleep
  {
    if s.entry.Some? && t in s.locals && t !in s.inside {
      var lock := s.heap[s.entry.value];
      assert Waits(lock, t);
      forall k | 0 <= k < |lock.waiters| && lock.waiters[k].task == t ensures k == Position(lock.waiters, t) {}
    }
  }

  lemma {:induction false} PositionAppend(waiters: seq<Waiter>, w: Waiter, task: nat)
    ensures Position(waiters + [w], task) == if Position(waiters, task) < |waiters| then Position(waiters, task)
                                             else if w.task == task then |waiters| else |waiters| + 1
  {
    if waiters != [] && waiters[0].task != task {
      assert (waiters + [w])[1..] == waiters[1..] + [w];
      PositionAppend(waiters[1..], w, task);
    }
  }

  lemma WaitsIff(lock: Lock, task: nat)
    ensures Waits(lock, task) <==> exists k :: 0 <= k < |lock.waiters| && lock.waiters[k].task == task
  {}

  lemma AcquireKeeps(lock: Lock, users: set<nat>, inside: set<nat>, t: nat)
    requires LockOk(lock) && Users(lock, users, inside) && t !in users
    ensures LockOk(Acquired(lock, t))
    ensures Users(Acquired(lock, t), users + {t}, if Passable(lock) then inside + {t} else inside)
  {
    forall u ensures Waits(Acquired(lock, t), u) <==> Waits(lock, u) || (!Passable(lock) && u == t) {
      PositionAppend(lock.waiters, Waiter(t, Asleep), u);
    }
    if !Passable(lock) {
      var l' := Acquired(lock, t);
      forall k | 0 <= k < |lock.waiters| ensures lock.waiters[k].task != t {
        WaitsIff(lock, t);
      }
    }
  }

  lemma CancelKeeps(lock: Lock, users: set<nat>, inside: set<nat>, t: nat)
    requires LockOk(lock) && Users(lock, users, inside) && Waits(lock, t)
    ensures LockOk(CancelWaiter(lock, t)) && Users(CancelWaiter(lock, t), users, inside)
  {
    var l' := CancelWaiter(lock, t);
    assert forall k | 0 <= k < |lock.waiters| :: l'.waiters[k].task == lock.waiters[k].task;
    forall u ensures Waits(l', u) <==> Waits(lock, u) {
      WaitsIff(lock, u);
      WaitsIff(l', u);
    }
  }

  lemma WithoutOne(lock: Lock, k: nat)
    requires LockOk(lock) && k < |lock.waiters| && lock.waiters[k].state != Asleep
    ensures lock.waiters[k].state == Woken ==> !lock.locked
    ensures LockOk(Lock(true, lock.waiters[..k] + lock.waiters[k + 1..])) || !(lock.locked || lock.waiters[k].state == Woken)
    ensures LockOk(Lock(false, WakeFirst(lock.waiters[..k] + lock.waiters[k + 1..]))) || lock.locked
  {
    var others := lock.waiters[..k] + lock.waiters[k + 1..];
    assert forall j | 0 <= j < |others| :: others[j] == lock.waiters[if j < k then j else j + 1];
  }

  lemma ResumeKeepsLock(lock: Lock, t: nat)
    requires LockOk(lock) && Waits(lock, t) && lock.waiters[Position(lock.waiters, t)].state != Asleep
    ensures LockOk(Resumed(lock, t))
    ensures lock.waiters[Position(lock.waiters, t)].state == Woken ==> !lock.locked
  {
    WithoutOne(lock, Position(lock.waiters, t));
    hide LockOk, WakeFirst, Position;
  }

  lemma ResumedTasks(lock: Lock, t: nat, j: nat)
    requires Waits(lock, t) && j < |lock.waiters| - 1
    ensures var k := Position(lock.waiters, t);
      |Resumed(lock, t).waiters| == |lock.waiters| - 1
      && Resumed(lock, t).waiters[j].task == lock.waiters[if j < k then j else j + 1].task
  {}

  lemma ResumedWaits(lock: Lock, t: nat, u: nat)
    requires LockOk(lock) && Waits(lock, t)
    ensures Waits(Resumed(lock, t), u) <==> Waits(lock, u) && u != t
  {
    var k, l' := Position(lock.waiters, t), Resumed(lock, t);
    WaitsIff(lock, u);
    WaitsIff(l', u);
    forall j: nat | j < |lock.waiters| - 1
      ensures |l'.waiters| == |lock.waiters| - 1 && l'.waiters[j].task == lock.waiters[if j < k then j else j + 1].task
    {
      ResumedTasks(lock, t, j);
    }
    hide Resumed, Waits;
    if |lock.waiters| == 1 {
      assert |Resumed(lock, t).waiters| == 0 by { ResumedLength(lock, t); }
    }
    if u != t && Waits(lock, u) {
      var j :| 0 <= j < |lock.waiters| && lock.waiters[j].task == u;
      assert l'.waiters[if j < k then j else j - 1].task == u;
    }
  }

  lemma ResumedLength(lock: Lock, t: nat)
    requires Waits(lock, t)
    ensures |Resumed(lock, t).waiters| == |lock.waiters| - 1
  {}

  lemma ResumeKeeps(lock: Lock, users: set<nat>, inside: set<nat>, t: nat)
    requires LockOk(lock) && Users(lock, users, inside) && Waits(lock, t)
    requires lock.waiters[Position(lock.waiters, t)].state != Asleep
    ensures LockOk(Resumed(lock, t))
    ensures if lock.waiters[Position(lock.waiters, t)].state == Woken then Users(Resumed(lock, t), users, inside + {t})
            else Users(Resumed(lock, t), users - {t}, inside)
  {
    ResumeKeepsLock(lock, t);
    var l', woken := Resumed(lock, t), lock.waiters[Position(lock.waiters, t)].state == Woken;
    forall u ensures Waits(l', u) <==> Waits(lock, u) && u != t { ResumedWaits(lock, t, u); }
    assert l'.locked == (lock.locked || woken);
    hide LockOk, Waits, Resumed;
    UsersWithout(lock, l', users, inside, t, woken);
  }

  lemma UsersWithout(lock: Lock, l': Lock, users: set<nat>, inside: set<nat>, t: nat, woken: bool)
    requires Users(lock, users, inside) && Waits(lock, t) && (woken ==> !lock.locked)
    requires forall u :: Waits(l', u) <==> Waits(lock, u) && u != t
    requires l'.locked == (lock.locked || woken)
    ensures if woken then Users(l', users, inside + {t}) else Users(l', users - {t}, inside)
  {
    hide Waits;
    assert t in users && t !in inside;
    if woken {
      assert inside == {};
      assert inside + {t} == {t};
      forall u ensures u in users && u !in {t} <==> Waits(l', u) {
        assert u in users && u !in inside <==> Waits(lock, u);
      }
    } else {
      forall u ensures u in users - {t} && u !in inside <==> Waits(l', u) {
        assert u in users && u !in inside <==> Waits(lock, u);
      }
    }
  }

  lemma ReleaseKeeps(lock: Lock, users: set<nat>, inside: set<nat>, t: nat)
    requires LockOk(lock) && Users(lock, users, inside) && t in inside
    ensures LockOk(Released(lock)) && Users(Released(lock), users - {t}, inside - {t})
    ensures Released(lock).waiters == [] ==> users == {t}
  {
    var l' := Released(lock);
    assert inside == {t};
    forall u ensures Waits(l', u) <==> Waits(lock, u) {
      WaitsIff(lock, u);
      WaitsIff(l', u);
    }
    if l'.waiters == [] {
      forall u | u in users ensures u == t {
        assert !Waits(lock, u);
      }
    }
  }

  /** Only the object the entry refers to has changed, and its users are still its users. */
  lemma EntryObjectChanged(s: State, s': State, id: nat)
    requires Inv(s) && (s.entry == Some(id) || s.entry.None?)
    requires s'.entry == Some(id) && id in s'.heap && s'.heap == s.heap[id := s'.heap[id]]
    requires forall t | t in s'.locals :: s'.locals[t] == id
    requires LockOk(s'.heap[id]) && Users(s'.heap[id], s'.locals.Keys, s'.inside)
    ensures Inv(s')
  {
    hide LockOk, Users;
  }

  lemma EnterKeepsInv(s: State, t: nat, made: nat)
    requires Inv(s) && Enabled(s, Enter(t, made))
    ensures Inv(Act(s, Enter(t, made)))
  {
    var id, lock := if s.entry.Some? then s.entry.value else made, if s.entry.Some? then s.heap[s.entry.value] else FREE;
    hide LockOk, Users, Acquired, Passable, Waits;
    EntryLock(s, lock);
    AcquireKeeps(lock, s.locals.Keys, s.inside, t);
    assert s.locals[t := id].Keys == s.locals.Keys + {t};
    EntryObjectChanged(s, Act(s, Enter(t, made)), id);
  }

  lemma EntryLock(s: State, lock: Lock)
    requires Inv(s) && lock == if s.entry.Some? then s.heap[s.entry.value] else FREE
    ensures LockOk(lock) && Users(lock, s.locals.Keys, s.inside)
  {
    if s.entry.None? {
      assert s.locals.Keys == {};
    }
  }

  lemma CancelKeepsInv(s: State, t: nat)
    requires Inv(s) && Enabled(s, Cancel(t))
    ensures Inv(Act(s, Cancel(t)))
  {
    CancelKeeps(s.heap[s.locals[t]], s.locals.Keys, s.inside, t);
    assert forall u | u in s.locals :: s.locals[u] == s.locals[t];
    hide LockOk, Users, Waits, CancelWaiter;
    EntryObjectChanged(s, Act(s, Cancel(t)), s.locals[t]);
  }

  lemma ResumeKeepsInv(s: State, t: nat)
    requires Inv(s) && Enabled(s, Resume(t))
    ensures Inv(Act(s, Resume(t)))
  {
    ResumeKeeps(s.heap[s.locals[t]], s.locals.Keys, s.inside, t);
    assert (s.locals - {t}).Keys == s.locals.Keys - {t};
    assert forall u | u in s.locals :: s.locals[u] == s.locals[t];
    hide LockOk, Users, Resumed, Waits;
    EntryObjectChanged(s, Act(s, Resume(t)), s.locals[t]);
  }

  lemma LeaveKeepsInv(s: State, t: nat)
    requires Inv(s) && Enabled(s, Leave(t))
    ensures Inv(Act(s, Leave(t)))
  {
    var lock := s.heap[s.locals[t]];
    ReleaseKeeps(lock, s.locals.Keys, s.inside, t);
    assert (s.locals - {t}).Keys == s.locals.Keys - {t};
    assert forall u | u in s.locals :: s.locals[u] == s.locals[t];
    assert Released(lock).waiters == [] ==> Released(lock) == FREE && s.inside == {t};
    hide LockOk, Users, Released;
    if Released(lock).waiters != [] {
      EntryObjectChanged(s, Act(s, Leave(t)), s.locals[t]);
    }
  }

  /** Every step keeps it. Leaving is the step that needs the test of the waiters: taking the entry away while
      a coroutine still waits on its object would leave that coroutine on an object outside the dictionary. */
  lemma StepKeepsInv(s: State, step: Step)
    requires Inv(s) && Enabled(s, step)
    ensures Inv(Act(s, step))
  {
    hide Inv, Act, Enabled;
    match step
    case Enter(t, made) => EnterKeepsInv(s, t, made);
    case Cancel(t) => CancelKeepsInv(s, t);
    case Resume(t) => ResumeKeepsInv(s, t);
    case Leave(t) => LeaveKeepsInv(s, t);
  }

  /** Over every run and across all lock objects ever made for a key: at most one task is inside the body;
      whoever holds or waits does so on the object the dictionary refers to; the dictionary has an entry
      whenever someone holds or waits; and every other object is open and without waiters. */
  lemma {:induction false} MutualExclusion(s: State, steps: seq<Step>)
    requires Inv(s) && Legal(s, steps)
    ensures var end := Play(s, steps);
      && Inv(end)
      && (forall a, b | a in end.inside && b in end.inside :: a == b)
      && (forall t | t in end.locals :: end.entry == Some(end.locals[t]))
      && (forall id | id in end.heap && end.heap[id] != FREE :: end.entry == Some(id))
    decreases |steps|
  {
    if steps != [] {
      StepKeepsInv(s, steps[0]);
      MutualExclusion(Act(s, steps[0]), steps[1..]);
      hide Act, Enabled, LockOk, Users;
    }
  }

  /** No wake-up is lost: whenever a lock object is open and has waiters, its first waiter can resume. */
  lemma SomeoneCanResume(steps: seq<Step>, id: nat)
    requires Legal(START, steps)
    ensures var end := Play(START, steps);
      id in end.heap && !end.heap[id].locked && end.heap[id].waiters != [] ==>
        Enabled(end, Resume(end.heap[id].waiters[0].task))
  {
    MutualExclusion(START, steps);
    var end := Play(START, steps);
    if id in end.heap && !end.heap[id].locked && end.heap[id].waiters != [] {
      assert Waits(end.heap[id], end.heap[id].waiters[0].task);
    }
  }

  /** The identity test in the source always succeeds: nobody can hold an object that has left the dictionary. */
  lemma HolderHasTheEntry(steps: seq<Step>, t: nat)
    requires Legal(START, steps) && t in Play(START, steps).inside
    ensures var end := Play(START, steps); t in end.locals && end.entry == Some(end.locals[t])
  {
    MutualExclusion(START, steps);
  }

  // ---------------------------------------------------------------- reclaiming

  /** An entry nobody holds or waits for. */
  predicate Idle(s: State) { s.entry.Some? && s.locals == map[] }

  lemma OnlyOne(locals: map<nat, nat>, t: nat)
    requires t in locals
    ensures locals - {t} == map[] <==> locals.Keys == {t}
  {
    assert (locals - {t}).Keys == locals.Keys - {t};
    if locals.Keys == {t} {
      assert (locals - {t}).Keys == {};
    }
    forall u | u in locals && u != t ensures u in locals - {t} {}
  }

  /** The entry is left behind exactly when the last task using the key was cancelled while it waited. */
  lemma EntryLeftBehindIff(s: State, step: Step)
    requires Inv(s) && Enabled(s, step) && !Idle(s)
    ensures Idle(Act(s, step)) <==>
      && step.Resume? && s.locals.Keys == {step.task}
      && var lock := s.heap[s.locals[step.task]];
         lock.waiters[Position(lock.waiters, step.task)].state in {CancelledAsleep, CancelledWoken}
  {
    var s' := Act(s, step);
    match step
    case Enter(t, made) => assert t in s'.locals;
    case Cancel(t) => assert t in s'.locals;
    case Resume(t) =>
      OnlyOne(s.locals, t);
      hide LockOk, Resumed, Users;
    case Leave(t) => LastLeaveReclaims(s, t);
  }

  lemma FirstWaits(lock: Lock)
    ensures lock.waiters != [] ==> Waits(lock, lock.waiters[0].task)
  {}

  lemma NoUsersNoWaiters(lock: Lock, inside: set<nat>)
    requires Users(lock, {}, inside)
    ensures lock.waiters == []
  {
    FirstWaits(lock);
  }

  /** Whoever leaves last takes the entry away. */
  lemma LastLeaveReclaims(s: State, t: nat)
    requires Inv(s) && Enabled(s, Leave(t))
    ensures Act(s, Leave(t)).locals == map[] <==> Act(s, Leave(t)).entry.None?
  {
    var l' := Released(s.heap[s.locals[t]]);
    ReleaseKeeps(s.heap[s.locals[t]], s.locals.Keys, s.inside, t);
    OnlyOne(s.locals, t);
    hide LockOk, Released;
    if s.locals.Keys == {t} {
      assert s.locals.Keys - {t} == {};
      NoUsersNoWaiters(l', s.inside - {t});
    }
  }

  /** A run that leaves an entry behind: the waiter woken by a release is cancelled before it resumes. */
  lemma CancelledWaiterLeavesEntry(a: nat, b: nat, made: nat, spare: nat)
    requires a != b && made != spare
    ensures var steps := [Enter(a, made), Enter(b, spare), Leave(a), Cancel(b), Resume(b)];
      Legal(START, steps) && Idle(Play(START, steps))
  {
    var steps := [Enter(a, made), Enter(b, spare), Leave(a), Cancel(b), Resume(b)];
    CancelledWaiterStates(a, b, made, spare);
    hide Act, Enabled;
    var s1 := Act(START, steps[0]);
    var s2 := Act(s1, steps[1]);
    var s3 := Act(s2, steps[2]);
    var s4 := Act(s3, steps[3]);
    PlayFirst(START, steps);
    PlayFirst(s1, steps[1..]);
    PlayFirst(s2, steps[2..]);
    PlayFirst(s3, steps[3..]);
    PlayFirst(s4, steps[4..]);
  }

  lemma PlayFirst(s: State, steps: seq<Step>)
    requires steps != [] && Enabled(s, steps[0])
    ensures Legal(s, steps) == Legal(Act(s, steps[0]), steps[1..])
    ensures Legal(s, steps) ==> Play(s, steps) == Play(Act(s, steps[0]), steps[1..])
  {}

  lemma CancelledWaiterStates(a: nat, b: nat, made: nat, spare: nat)
    requires a != b && made != spare
    ensures Enabled(START, Enter(a, made))
    ensures
      var s1 := Act(START, Enter(a, made));
      Enabled(s1, Enter(b, spare)) && (
      var s2 := Act(s1, Enter(b, spare));
      Enabled(s2, Leave(a)) && (
      var s3 := Act(s2, Leave(a));
      Enabled(s3, Cancel(b)) && (
      var s4 := Act(s3, Cancel(b));
      Enabled(s4, Resume(b)) && Act(s4, Resume(b)) == State(map[made := FREE], Some(made), map[], {}))))
  {
    WaiterWoken(a, b, made, spare);
    var woken, cancelled := [Waiter(b, Woken)], [Waiter(b, CancelledWoken)];
    assert Position(woken, b) == 0 && Position(cancelled, b) == 0 && woken[0 := Waiter(b, CancelledWoken)] == cancelled;
    var s3 := State(map[made := Lock(false, woken)], Some(made), map[b := made], {});
    var s4 := Act(s3, Cancel(b));
    assert s4 == State(map[made := Lock(false, cancelled)], Some(made), map[b := made], {});
    assert Act(s4, Resume(b)) == State(map[made := FREE], Some(made), map[], {});
    hide Act;
  }

  lemma WaiterWoken(a: nat, b: nat, made: nat, spare: nat)
    requires a != b && made != spare
    ensures
      var s1 := Act(START, Enter(a, made));
      Enabled(s1, Enter(b, spare)) && (
      var s2 := Act(s1, Enter(b, spare));
      Enabled(s2, Leave(a)) && Act(s2, Leave(a)) == State(map[made := Lock(false, [Waiter(b, Woken)])], Some(made), map[b := made], {}))
  {
    var asleep, woken := [Waiter(b, Asleep)], [Waiter(b, Woken)];
    assert Position(asleep, b) == 0 && [] + asleep == asleep && asleep[0 := Waiter(b, Woken)] == woken;
    var s1 := Act(START, Enter(a, made));
    assert s1 == State(map[made := Lock(true, [])], Some(made), map[a := made], {a});
    var s2 := Act(s1, Enter(b, spare));
    assert s2 == State(map[made := Lock(true, asleep)], Some(made), map[a := made, b := made], {a});
    assert map[a := made, b := made] - {a} == map[b := made];
  }

  /** An entry left behind does no harm: the next user of the key passes at once and takes it away again. */
  lemma NextUserReclaims(s: State, task: nat, made: nat)
    requires Inv(s) && Idle(s) && made !in s.heap
    ensures Enabled(s, Enter(task, made)) && Act(s, Enter(task, made)).inside == {task}
    ensures var s' := Act(s, Enter(task, made)); Enabled(s', Leave(task)) && Act(s', Leave(task)).entry.None?
  {
    var lock := s.heap[s.entry.value];
    assert s.locals.Keys == {} && s.inside == {};
    NoUsersNoWaiters(lock, {});
  }

  /** Why the test of the waiters is there. Were a leaving task to take the entry away without it, two tasks
      could be inside at once: one woken on the old object, one on a new object under the same key. */
  lemma WithoutWaiterTestTwoInside(a: nat, b: nat, c: nat, made: nat, spare: nat, other: nat)
    requires a != b && b != c && a != c && made != spare && made != other
    ensures var s2 := Act(Act(START, Enter(a, made)), Enter(b, spare));
      && Enabled(s2, Leave(a))
      && var s3 := Act(s2, Leave(a)).(entry := None);
         && Enabled(s3, Enter(c, other)) && Enabled(Act(s3, Enter(c, other)), Resume(b))
         && Act(Act(s3, Enter(c, other)), Resume(b)).inside == {b, c}
  {
    WaiterWoken(a, b, made, spare);
    var woken := [Waiter(b, Woken)];
    assert Position(woken, b) == 0;
    var s3 := State(map[made := Lock(false, woken)], None, map[b := made], {});
    var s4 := Act(s3, Enter(c, other));
    assert s4 == State(map[made := Lock(false, woken), other := Lock(true, [])], Some(other), map[b := made, c := other], {c});
    assert Act(s4, Resume(b)).inside == {b, c};
    hide Act;
  }

  // ---------------------------------------------------------------- the dictionary

  /** The dictionary as the coroutines of one key see it, other keys' entries included. */
  class LockTable {
    const key: string
    var locks: map<string, nat>
    var heap: map<nat, Lock>
    var locals: map<nat, nat>
    ghost var inside: set<nat>

    ghost function View(): State reads this {
      State(heap, if key in locks then Some(locks[key]) else None, locals, inside)
    }

    ghost predicate Valid() reads this { Inv(View()) }

    constructor (key: string)
      ensures Valid() && View() == START && this.key == key
    {
      this.key := key;
      locks, heap, locals, inside := map[], map[], map[], {};
    }

    ghost predicate OthersKept(before: map<string, nat>) reads this {
      locks - {key} == before - {key}
    }

    method EnterBody(task: nat, made: nat) returns (passed: bool)
      requires Valid() && Enabled(View(), Enter(task, made))
      modifies this
      ensures Valid() && View() == Act(old(View()), Enter(task, made)) && OthersKept(old(locks))
      ensures passed <==> task in inside
    {
      ghost var after := Act(View(), Enter(task, made));
      EnterKeepsInv(View(), task, made);
      hide Inv;
      if key !in locks {
        heap := heap[made := FREE];
        locks := locks[key := made];
      }
      var lock := locks[key];
      locals := locals[task := lock];
      passed := Passable(heap[lock]);
      heap := heap[lock := Acquired(heap[lock], task)];
      if passed {
        inside := inside + {task};
      }
      assert View() == after;
    }

    /** The `finally` block. */
    method LeaveBody(task: nat)
      requires Valid() && Enabled(View(), Leave(task))
      modifies this
      ensures Valid() && View() == Act(old(View()), Leave(task)) && OthersKept(old(locks))
    {
      ghost var after := Act(View(), Leave(task));
      LeaveKeepsInv(View(), task);
      hide Inv;
      var lock := locals[task];
      heap := heap[lock := Released(heap[lock])];
      var hasWaiters := heap[lock].waiters != [];
      if key in locks && locks[key] == lock && !heap[lock].locked && !hasWaiters {
        locks := locks - {key};
      }
      locals := locals - {task};
      inside := inside - {task};
      assert View() == after;
    }

    /** The two ways out of the wait. */
    method ResumeWait(task: nat) returns (passed: bool)
      requires Valid() && Enabled(View(), Resume(task))
      modifies this
      ensures Valid() && View() == Act(old(View()), Resume(task)) && locks == old(locks)
      ensures passed <==> task in inside
    {
      ghost var after := Act(View(), Resume(task));
      assert task !in inside by { WaitersAreOutside(View(), task); }
      ResumeKeepsInv(View(), task);
      hide Inv;
      var lock := locals[task];
      passed := heap[lock].waiters[Position(heap[lock].waiters, task)].state == Woken;
      heap := heap[lock := Resumed(heap[lock], task)];
      if passed {
        inside := inside + {task};
      } else {
        locals := locals - {task};
      }
      assert View() == after;
    }

    method CancelWait(task: nat)
      requires Valid() && Enabled(View(), Cancel(task))
      modifies this`heap
      ensures Valid() && View() == Act(old(View()), Cancel(task))
    {
      CancelKeepsInv(View(), task);
      hide Inv;
      heap := heap[locals[task] := CancelWaiter(heap[locals[task]], task)];
    }
  }

  lemma WaitersAreOutside(s: State, t: nat)
    requires Inv(s) && Enabled(s, Resume(t))
    ensures t !in s.inside
  {}
}
