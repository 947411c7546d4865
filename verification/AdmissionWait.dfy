/** Waiting for an in-flight slot (`acquire_with_wait` in gpucall/admission.py).

    The environment is a script: the answer of the k-th acquire, and the clock readings.
    Reading 0 fixes the deadline; try k takes reading 2k+1 for the deadline check and
    reading 2k+2 to compute how long to sleep.
  */
module AdmissionWait {
  import opened Admission

  predicate IsInflightLimit(d: Decision) {
    d.Refused? && d.reason in {TupleInflightLimit, FamilyInflightLimit, ScopeInflightLimit}
  }

  function Max(x: real, y: real): real { if x < y then y else x }

  function Min(x: real, y: real): real { if x < y then x else y }

  function Ceil(x: real): int { -((-x).Floor) }

  function Deadline(clock: nat -> real, wait: real): real { clock(0) + Max(wait, 0.0) }

  /** The clock never goes back, and a sleep lasts at least as long as asked. */
  ghost predicate SleepsInFull(clock: nat -> real, wait: real) {
    && clock(0) <= clock(1)
    && forall k: nat ::
      && clock(2 * k + 1) <= clock(2 * k + 2)
      && clock(2 * k + 2) + Min(0.1, Max(Deadline(clock, wait) - clock(2 * k + 2), 0.0)) <= clock(2 * k + 3)
  }

  lemma EnoughTries(wait: real)
    ensures wait >= 0.0 ==> Ceil(wait / 0.1) >= 0 && 0.1 * Ceil(wait / 0.1) as real >= wait
  {}

  method AcquireWithWait(answer: nat -> Decision, clock: nat -> real, wait: real) returns (d: Decision, tries: nat)
    requires SleepsInFull(clock, wait)
    ensures tries >= 1 && d == answer(tries - 1)
    ensures forall k: nat | k < tries - 1 :: IsInflightLimit(answer(k)) && clock(2 * k + 1) < Deadline(clock, wait)
    ensures IsInflightLimit(d) ==> clock(2 * tries - 1) >= Deadline(clock, wait)
    ensures tries <= Ceil(Max(wait, 0.0) / 0.1) + 1
  {
    var deadline := clock(0) + Max(wait, 0.0);
    ghost var bound := Ceil(Max(wait, 0.0) / 0.1);
    EnoughTries(Max(wait, 0.0));
    hide Ceil;
    tries := 0;
    while true
      invariant 0 <= tries <= bound
      invariant forall k: nat | k < tries :: IsInflightLimit(answer(k)) && clock(2 * k + 1) < deadline
      invariant clock(2 * tries + 1) >= Min(deadline, clock(0) + 0.1 * tries as real)
      decreases bound + 1 - tries
    {
      d := answer(tries);
      tries := tries + 1;
      if d.Allowed? || !IsInflightLimit(d) || clock(2 * tries - 1) >= deadline {
        return;
      }
      assert clock(2 * (tries - 1) + 2) + Min(0.1, Max(deadline - clock(2 * (tries - 1) + 2), 0.0)) <= clock(2 * (tries - 1) + 3);
      assert clock(2 * (tries - 1) + 1) <= clock(2 * (tries - 1) + 2);
    }
  }
}
