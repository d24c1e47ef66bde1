/** The two `RetryLoggerListener`s: which event each callback reports, with
    which attempt number, and the event sequence a whole run produces.

    Log formatting is left out; an event is the data a log line carries.
 */
module Listeners {
  import opened Kinds
  import opened Classifier
  import opened Executor

  datatype EventKind = AttemptFailed | AttemptSucceeded | PolicyExhausted | PolicyTerminated

  /** One log line: its kind, "attempt/max", the run's name and the failure
      it mentions. */
  datatype Event = Event(kind: EventKind, attempt: int, max: int, name: string, failure: Option<Failure>)

  /** The failures among `outs`, counted from the left: every outcome is
      counted iff every outcome failed, none iff every outcome succeeded. */
  function FailureCount<V>(outs: seq<Outcome<V>>): (n: nat)
    ensures n <= |outs|
    ensures n == |outs| <==> FailedBefore(outs, |outs|)
    ensures n == 0 <==> forall j :: 0 <= j < |outs| ==> outs[j].Ok?
  {
    if |outs| == 0 then 0
    else FailureCount(outs[..|outs| - 1]) + (if outs[|outs| - 1].Fail? then 1 else 0)
  }

  /** Every outcome of `outs` before position `upTo` is a failure. */
  predicate FailedBefore<V>(outs: seq<Outcome<V>>, upTo: nat) {
    forall j :: 0 <= j < upTo && j < |outs| ==> outs[j].Fail?
  }

  // ---------------------------------------------------------------------------
  // Spring 6: spring-retry's RetryListener callbacks.

  /** What the listener reads from spring-retry's `RetryContext`: the name
      attribute the adapter's callback sets and the retry count, which counts
      the failures registered so far. */
  datatype Context6 = Context6(name: string, retryCount: nat)

  /** `onError`: the count already includes the failure being reported. */
  function OnError6(maxAttempts: int, ctx: Context6, throwable: Failure): Event {
    Event(AttemptFailed, ctx.retryCount, maxAttempts, ctx.name, Some(throwable))
  }

  /** `onSuccess`: the successful attempt comes after `retryCount` failures. */
  function OnSuccess6(maxAttempts: int, ctx: Context6): Event {
    Event(AttemptSucceeded, ctx.retryCount + 1, maxAttempts, ctx.name, None)
  }

  /** `close`: nothing after a success; otherwise "terminated" when the last
      failure is an instance of an explicitly non-retryable kind and
      "exhausted" in every other case. */
  function Close6(maxAttempts: int, nonRetryable: seq<Kind>, ctx: Context6, throwable: Option<Failure>): seq<Event> {
    match throwable
    case None => []
    case Some(f) =>
      var kind := if Matches(nonRetryable, f.kind) then PolicyTerminated else PolicyExhausted;
      [Event(kind, ctx.retryCount, maxAttempts, ctx.name, throwable)]
  }

  /** The callback spring-retry makes for the `j`-th invocation (0-based):
      `onError` after the failure was registered, or `onSuccess`. */
  function AttemptEvent6<V>(name: string, maxAttempts: int, outs: seq<Outcome<V>>, j: nat): Event
    requires j < |outs|
  {
    if outs[j].Fail? then OnError6(maxAttempts, Context6(name, FailureCount(outs[..j + 1])), outs[j].failure)
    else OnSuccess6(maxAttempts, Context6(name, FailureCount(outs[..j])))
  }

  /** The callbacks spring-retry makes for a run with these outcomes: one
      `onError` or `onSuccess` per invocation, then `close` with the last
      failure, or with none after a success. */
  function Events6<V>(name: string, maxAttempts: int, nonRetryable: seq<Kind>, outs: seq<Outcome<V>>): seq<Event>
    requires |outs| > 0
  {
    var perAttempt := seq(|outs|, j requires 0 <= j < |outs| => AttemptEvent6(name, maxAttempts, outs, j));
    var last := outs[|outs| - 1];
    perAttempt + Close6(maxAttempts, nonRetryable, Context6(name, FailureCount(outs)),
                        if last.Fail? then Some(last.failure) else None)
  }

  /** `onError` for the `j`-th invocation (0-based) of a run whose
      invocations so far all failed: the count spring-retry already raised
      for this failure numbers it `j + 1`. */
  lemma OnErrorNumbersInvocation<V>(name: string, maxAttempts: int, outs: seq<Outcome<V>>, j: nat)
    requires j < |outs| && FailedBefore(outs, j + 1)
    ensures OnError6(maxAttempts, Context6(name, FailureCount(outs[..j + 1])), outs[j].failure)
            == Event(AttemptFailed, j + 1, maxAttempts, name, Some(outs[j].failure))
  {
    assert FailedBefore(outs[..j + 1], j + 1);
  }

  /** `onSuccess` for the `j`-th invocation (0-based) after `j` failures:
      the count of failures plus one numbers it `j + 1`. */
  lemma OnSuccessNumbersInvocation<V>(name: string, maxAttempts: int, outs: seq<Outcome<V>>, j: nat)
    requires j < |outs| && FailedBefore(outs, j) && outs[j].Ok?
    ensures OnSuccess6(maxAttempts, Context6(name, FailureCount(outs[..j])))
            == Event(AttemptSucceeded, j + 1, maxAttempts, name, None)
  {
    assert FailedBefore(outs[..j], j);
  }

  /** `close` at the end of a run: nothing after a success; after a failed
      run of `n` invocations one event numbered `n`, "terminated" exactly
      when the failure is an instance of a listed non-retryable kind. */
  lemma CloseReportsRunEnd<V>(name: string, maxAttempts: int, nonRetryable: seq<Kind>, outs: seq<Outcome<V>>)
    requires |outs| > 0 && FailedBefore(outs, |outs| - 1)
    ensures var last := outs[|outs| - 1];
            var ev := Close6(maxAttempts, nonRetryable, Context6(name, FailureCount(outs)), if last.Fail? then Some(last.failure) else None);
            && (last.Ok? <==> ev == [])
            && (last.Fail? ==>
                  ev == [Event(if Matches(nonRetryable, last.failure.kind) then PolicyTerminated else PolicyExhausted,
                               |outs|, maxAttempts, name, Some(last.failure))])
  {
  }

  /** After failures only, the `j`-th invocation's event is numbered `j + 1`. */
  lemma AttemptEvent6Numbered<V>(name: string, maxAttempts: int, outs: seq<Outcome<V>>, j: nat)
    requires j < |outs| && FailedBefore(outs, j)
    ensures var e := AttemptEvent6(name, maxAttempts, outs, j);
            && e.attempt == j + 1
            && e.kind == (if outs[j].Fail? then AttemptFailed else AttemptSucceeded)
            && e.failure == (if outs[j].Fail? then Some(outs[j].failure) else None)
            && e.name == name && e.max == maxAttempts
  {
    if outs[j].Fail? {
      OnErrorNumbersInvocation(name, maxAttempts, outs, j);
    } else {
      OnSuccessNumbersInvocation(name, maxAttempts, outs, j);
    }
  }

  /** For a run (every invocation but the last failed), the Spring 6 events
      are numbered 1, 2, ... by invocation, followed after a failed run by
      one final event numbered with the invocation count, "terminated"
      exactly when the last failure is explicitly non-retryable. Every event
      carries the run's name and the policy's max attempts. */
  lemma Events6Shape<V>(name: string, maxAttempts: int, nonRetryable: seq<Kind>, outs: seq<Outcome<V>>)
    requires |outs| > 0 && FailedBefore(outs, |outs| - 1)
    ensures var ev := Events6(name, maxAttempts, nonRetryable, outs);
            var last := outs[|outs| - 1];
            && |ev| == |outs| + (if last.Fail? then 1 else 0)
            && (forall j :: 0 <= j < |outs| ==>
                  ev[j].attempt == j + 1 &&
                  ev[j].kind == (if outs[j].Fail? then AttemptFailed else AttemptSucceeded) &&
                  ev[j].failure == (if outs[j].Fail? then Some(outs[j].failure) else None))
            && (last.Fail? ==>
                  ev[|outs|].attempt == |outs| &&
                  ev[|outs|].failure == Some(last.failure) &&
                  (ev[|outs|].kind == PolicyTerminated <==> Matches(nonRetryable, last.failure.kind)) &&
                  (ev[|outs|].kind == PolicyExhausted <==> !Matches(nonRetryable, last.failure.kind)))
            && (forall e :: e in ev ==> e.name == name && e.max == maxAttempts)
  {
    var ev := Events6(name, maxAttempts, nonRetryable, outs);
    forall j | 0 <= j < |outs|
      ensures ev[j] == AttemptEvent6(name, maxAttempts, outs, j)
      ensures ev[j].attempt == j + 1
      ensures ev[j].kind == (if outs[j].Fail? then AttemptFailed else AttemptSucceeded)
      ensures ev[j].failure == (if outs[j].Fail? then Some(outs[j].failure) else None)
      ensures ev[j].name == name && ev[j].max == maxAttempts
    {
      AttemptEvent6Numbered(name, maxAttempts, outs, j);
    }
    CloseReportsRunEnd(name, maxAttempts, nonRetryable, outs);
  }

  // ---------------------------------------------------------------------------
  // Spring 7: Spring Framework's core RetryListener callbacks.

  /** The listener's max: the backoff's `maxAttempts` counts retries, so the
      attempts shown are one more. */
  function ListenerMax7(backOffMaxAttempts: nat): nat {
    backOffMaxAttempts + 1
  }

  /** What the listener reads from Spring's `RetryState`: retries made before
      this execution, whether it succeeded, and its failure. */
  datatype RetryState = RetryState(retryCount: nat, successful: bool, lastException: Option<Failure>)

  /** Spring's `RetryException`: the wrapped last failure and the retries made. */
  datatype RetryException = RetryException(cause: Failure, retryCount: nat)

  /** `onRetryableExecution`: attempt `retryCount + 1`, failed or succeeded
      according to the state. */
  function OnRetryableExecution7(maxAttempts: int, name: string, state: RetryState): Event {
    if !state.successful then Event(AttemptFailed, state.retryCount + 1, maxAttempts, name, state.lastException)
    else Event(AttemptSucceeded, state.retryCount + 1, maxAttempts, name, None)
  }

  /** `onRetryPolicyExhaustion`: "exhausted" when the policy would still
      retry the cause, "terminated" otherwise. */
  function OnRetryPolicyExhaustion7(maxAttempts: int, shouldRetry: Kind -> bool, name: string, exception: RetryException): Event {
    var attempts := exception.retryCount + 1;
    if shouldRetry(exception.cause.kind) then Event(PolicyExhausted, attempts, maxAttempts, name, Some(exception.cause))
    else Event(PolicyTerminated, attempts, maxAttempts, name, Some(exception.cause))
  }

  /** The state Spring hands the listener after the `j`-th invocation (0-based). */
  function StateAfter<V>(outs: seq<Outcome<V>>, j: nat): RetryState
    requires j < |outs|
  {
    RetryState(j, outs[j].Ok?, if outs[j].Fail? then Some(outs[j].failure) else None)
  }

  /** The callbacks Spring makes for a run with these outcomes: one
      `onRetryableExecution` per invocation, then `onRetryPolicyExhaustion`
      with the wrapped last failure when the run failed. */
  function Events7<V>(name: string, backOffMaxAttempts: nat, shouldRetry: Kind -> bool, outs: seq<Outcome<V>>): seq<Event>
    requires |outs| > 0
  {
    var max := ListenerMax7(backOffMaxAttempts);
    var perAttempt := seq(|outs|, j requires 0 <= j < |outs| => OnRetryableExecution7(max, name, StateAfter(outs, j)));
    var last := outs[|outs| - 1];
    if last.Ok? then perAttempt
    else perAttempt + [OnRetryPolicyExhaustion7(max, shouldRetry, name, RetryException(last.failure, |outs| - 1))]
  }

  /** `onRetryableExecution` after the `j`-th invocation (0-based): Spring's
      retry count is `j`, so the invocation is numbered `j + 1`, failed or
      succeeded by its outcome. */
  lemma OnRetryableExecutionNumbersInvocation<V>(name: string, backOffMaxAttempts: nat, outs: seq<Outcome<V>>, j: nat)
    requires j < |outs|
    ensures var e := OnRetryableExecution7(ListenerMax7(backOffMaxAttempts), name, StateAfter(outs, j));
            && e.attempt == j + 1
            && (e.kind == AttemptFailed <==> outs[j].Fail?)
            && (e.kind == AttemptSucceeded <==> outs[j].Ok?)
            && e.failure == (if outs[j].Fail? then Some(outs[j].failure) else None)
  {
  }

  /** `onRetryPolicyExhaustion` at the end of a failed run of `n`
      invocations: numbered `n`; "exhausted" exactly when the policy would
      still retry the cause, which the loop only gives up on when the budget
      is spent; "terminated" exactly when the cause is not retryable. */
  lemma OnExhaustionDecides<St, V>(act: St -> (St, Outcome<V>), shouldRetry: Kind -> bool, backOffMaxAttempts: nat, st: St, name: string)
    ensures var t := Run(act, shouldRetry, backOffMaxAttempts + 1, st);
            var n := |t.outcomes|;
            t.Last().Fail? ==>
              var e := OnRetryPolicyExhaustion7(ListenerMax7(backOffMaxAttempts), shouldRetry, name, RetryException(t.Last().failure, n - 1));
              && e.attempt == n && e.failure == Some(t.Last().failure)
              && (e.kind == PolicyExhausted <==> n == ListenerMax7(backOffMaxAttempts) && shouldRetry(t.Last().failure.kind))
              && (e.kind == PolicyTerminated <==> !shouldRetry(t.Last().failure.kind))
  {
  }

  /** For a Spring 7 run the final event is "exhausted" exactly when the
      retry budget was used up on a retryable failure, and "terminated"
      exactly when a non-retryable failure ended the run; both are numbered
      with the invocation count, and per-invocation events are numbered 1, 2,
      ... */
  lemma Events7Meaning<St, V>(act: St -> (St, Outcome<V>), shouldRetry: Kind -> bool, backOffMaxAttempts: nat, st: St, name: string)
    ensures var t := Run(act, shouldRetry, backOffMaxAttempts + 1, st);
            var ev := Events7(name, backOffMaxAttempts, shouldRetry, t.outcomes);
            var n := |t.outcomes|;
            && |ev| == n + (if t.Last().Fail? then 1 else 0)
            && (forall j :: 0 <= j < n ==>
                  ev[j].attempt == j + 1 &&
                  ev[j].kind == (if t.outcomes[j].Fail? then AttemptFailed else AttemptSucceeded))
            && (t.Last().Fail? ==>
                  ev[n].attempt == n &&
                  (ev[n].kind == PolicyExhausted <==> n == ListenerMax7(backOffMaxAttempts) && shouldRetry(t.Last().failure.kind)) &&
                  (ev[n].kind == PolicyTerminated <==> !shouldRetry(t.Last().failure.kind)))
            && (forall e :: e in ev ==> e.name == name && e.max == ListenerMax7(backOffMaxAttempts))
  {
  }
}
