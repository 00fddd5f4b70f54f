/**
  The retry loops of the election engine: call, and on failure sleep for an interval that doubles up
  to the election timeout, until the deadline set by that timeout.
 */
module Backoff {
  datatype Attempt = Attempt(duration: nat, ok: bool)

  function Pow2(n: nat): (p: nat)
    ensures p >= 1
  {
    if n == 0 then 1 else 2 * Pow2(n - 1)
  }

  /** The next interval; the request loop leaves an interval at or above the cap alone. */
  function NextInterval(interval: nat, cap: nat, guarded: bool): nat {
    if guarded && interval >= cap then interval
    else if 2 * interval > cap then cap
    else 2 * interval
  }

  /** How long the first n calls took. */
  function Durations(calls: seq<Attempt>, n: nat): nat
    requires n <= |calls|
  {
    if n == 0 then 0 else Durations(calls, n - 1) + calls[n - 1].duration
  }

  lemma Doubling(i: nat, n: nat)
    ensures i * Pow2(n + 1) == 2 * (i * Pow2(n))
    ensures i * (Pow2(n + 1) - 1) == i * (Pow2(n) - 1) + i * Pow2(n)
  {
    assert Pow2(n + 1) == 2 * Pow2(n);
  }

  /**
    Runs against a given sequence of call outcomes.  A sleep completes only if it ends by the deadline.
    The completed sleeps last i, 2i, 4i, ..., the cap shortening none of them, and end by the deadline together with
    the calls between them; the loop gives up exactly when the next sleep would not.
   */
  method Retry(initial: nat, timeout: nat, guarded: bool, calls: seq<Attempt>)
    returns (attempts: nat, sleeps: nat, ok: bool)
    requires initial > 0
    ensures initial * (Pow2(sleeps) - 1) <= timeout
    ensures attempts <= |calls| && (attempts == sleeps + 1 || attempts == sleeps == |calls|)
    ensures ok <==> attempts > 0 && calls[attempts - 1].ok
    ensures forall j :: 0 <= j < attempts - 1 ==> !calls[j].ok
    ensures sleeps > 0 ==> Durations(calls, sleeps) + initial * (Pow2(sleeps) - 1) <= timeout
    ensures !ok && attempts > sleeps ==> Durations(calls, attempts) + initial * (Pow2(sleeps + 1) - 1) > timeout
  {
    attempts, sleeps, ok := 0, 0, false;
    var elapsed, interval := 0, initial;
    while attempts < |calls|
      invariant 0 <= attempts <= |calls| && attempts == sleeps && !ok
      invariant elapsed == Durations(calls, attempts) + initial * (Pow2(sleeps) - 1)
      invariant sleeps > 0 ==> initial <= elapsed <= timeout
      invariant interval == initial * Pow2(sleeps) || (sleeps > 0 && interval == timeout <= initial * Pow2(sleeps))
      invariant forall j :: 0 <= j < attempts ==> !calls[j].ok
    {
      elapsed := elapsed + calls[attempts].duration;
      attempts := attempts + 1;
      if calls[attempts - 1].ok {
        ok := true;
        return;
      }
      Doubling(initial, sleeps);
      if elapsed + interval > timeout {
        return;
      }
      elapsed := elapsed + interval;
      sleeps := sleeps + 1;
      interval := NextInterval(interval, timeout, guarded);
    }
  }
}
