/** The bounded retry policy that both adapters declare (`maxAttempts = 3`,
    a fixed 1000 ms back-off): run the operation, and on a failure wait and run
    it again, until it succeeds or the attempts are used up. The operation's
    behaviour is given as the outcome each successive attempt would have. */
module Retry {
  import opened Values

  const MaxAttempts: nat := 3
  const BackoffDelayMs: nat := 1000

  /** The attempt that ended the call and how many attempts were made. */
  datatype RetryResult<+T> = RetryResult(last: Attempt<T>, attempts: nat)

  /** True when `n` attempts are exactly what the policy makes on `outcomes`:
      every earlier attempt failed, and the n-th succeeded or was the last
      one allowed. */
  predicate StopsAfter<T>(maxAttempts: nat, outcomes: seq<Attempt<T>>, n: nat)
    requires maxAttempts <= |outcomes|
  {
    && 1 <= n <= maxAttempts
    && (forall j :: 0 <= j < n - 1 ==> outcomes[j].Failure?)
    && (outcomes[n - 1].Success? || n == maxAttempts)
  }

  /** The retry policy as a function of the attempts' outcomes. */
  function Retried<T>(maxAttempts: nat, outcomes: seq<Attempt<T>>): (r: RetryResult<T>)
    requires 1 <= maxAttempts <= |outcomes|
    ensures StopsAfter(maxAttempts, outcomes, r.attempts)
    ensures r.last == outcomes[r.attempts - 1]
    decreases maxAttempts
  {
    if outcomes[0].Success? || maxAttempts == 1 then RetryResult(outcomes[0], 1)
    else
      var rest := Retried(maxAttempts - 1, outcomes[1..]);
      RetryResult(rest.last, rest.attempts + 1)
  }

  /** Only one attempt count fits the policy, so `StopsAfter` pins `Retried`
      down: the first success, or else the last allowed failure. */
  lemma StopsAfterUnique<T>(maxAttempts: nat, outcomes: seq<Attempt<T>>, n: nat, m: nat)
    requires maxAttempts <= |outcomes|
    requires StopsAfter(maxAttempts, outcomes, n) && StopsAfter(maxAttempts, outcomes, m)
    ensures n == m
  {
    var k := if n < m then n else m;
    assert outcomes[k - 1].Failure? || k == m;
    assert outcomes[k - 1].Failure? || k == n;
  }

  /** The first successful attempt is returned and nothing follows it. */
  lemma FirstSuccessReturned<T>(maxAttempts: nat, outcomes: seq<Attempt<T>>, k: nat)
    requires 1 <= maxAttempts <= |outcomes|
    requires k < maxAttempts && outcomes[k].Success?
    requires forall j :: 0 <= j < k ==> outcomes[j].Failure?
    ensures Retried(maxAttempts, outcomes) == RetryResult(outcomes[k], k + 1)
  {
    var r := Retried(maxAttempts, outcomes);
    StopsAfterUnique(maxAttempts, outcomes, r.attempts, k + 1);
  }

  /** When every allowed attempt fails, all of them are made and the last
      failure is what the caller sees. */
  lemma ExhaustedRetriesSurfaceLastFailure<T>(maxAttempts: nat, outcomes: seq<Attempt<T>>)
    requires 1 <= maxAttempts <= |outcomes|
    requires forall j :: 0 <= j < maxAttempts ==> outcomes[j].Failure?
    ensures Retried(maxAttempts, outcomes) == RetryResult(outcomes[maxAttempts - 1], maxAttempts)
  {
    var r := Retried(maxAttempts, outcomes);
    StopsAfterUnique(maxAttempts, outcomes, r.attempts, maxAttempts);
  }

  /** The retry loop: attempts are made one at a time, waiting `delayMs`
      between two attempts. `waitedMs` is the total back-off time. */
  method RunWithRetry<T>(maxAttempts: nat, delayMs: nat, outcomes: seq<Attempt<T>>)
    returns (last: Attempt<T>, attempts: nat, waitedMs: nat)
    requires 1 <= maxAttempts <= |outcomes|
    ensures 1 <= attempts <= maxAttempts
    ensures forall j :: 0 <= j < attempts - 1 ==> outcomes[j].Failure?
    ensures last == outcomes[attempts - 1]
    ensures last.Success? || attempts == maxAttempts
    ensures RetryResult(last, attempts) == Retried(maxAttempts, outcomes)
    ensures waitedMs == (attempts - 1) * delayMs
  {
    last := outcomes[0];
    attempts := 1;
    waitedMs := 0;
    while last.Failure? && attempts < maxAttempts
      invariant 1 <= attempts <= maxAttempts
      invariant forall j :: 0 <= j < attempts - 1 ==> outcomes[j].Failure?
      invariant last == outcomes[attempts - 1]
      invariant waitedMs == (attempts - 1) * delayMs
      decreases maxAttempts - attempts
    {
      waitedMs := waitedMs + delayMs;
      last := outcomes[attempts];
      attempts := attempts + 1;
    }
    var spec := Retried(maxAttempts, outcomes);
    StopsAfterUnique(maxAttempts, outcomes, attempts, spec.attempts);
  }
}
