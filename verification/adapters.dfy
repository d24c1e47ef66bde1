/** The fluent retry contract (`Retry`) and its two Spring adapters.

    The staged builder is a typestate: `RetrySpec` only offers `Call` and
    `RunOf`, `CallSpec` and `RunSpec` only offer execute and fallback, so no
    other order of calls can be written. An adapter is either the Spring 6
    one (spring-retry's `RetryTemplate`, configured to rethrow the last
    exception) or the Spring 7 one (Spring Framework's core `RetryTemplate`,
    which wraps the last failure in a `RetryException` that the adapter
    unwraps).
 */
module Adapters {
  import opened Kinds
  import opened Classifier
  import opened Executor
  import opened Listeners

  /** How a call returns to its caller: a value, or a thrown failure. */
  datatype Result<+V> = Returned(value: V) | Thrown(failure: Failure)

  /** The spring-retry policy: total attempts, the classification map, and
      the explicitly non-retryable kinds the listener checks. */
  datatype Policy6 = Policy6(maxAttempts: nat, classification: map<Kind, bool>, nonRetryable: seq<Kind>)

  /** The Spring 6 policy built from the two configured kind lists. */
  function Spring6Policy(maxAttempts: nat, retryable: seq<Kind>, nonRetryable: seq<Kind>): Policy6 {
    Policy6(maxAttempts, ClassificationMap(retryable, nonRetryable), nonRetryable)
  }

  /** The Spring 7 policy: the backoff's attempt limit (a number of retries)
      and the include and exclude lists. */
  datatype Policy7 = Policy7(maxRetries: nat, includes: seq<Kind>, excludes: seq<Kind>)

  /** The retry template behind an adapter. */
  datatype Engine = Spring6(p6: Policy6) | Spring7(p7: Policy7) {
    /** spring-retry with zero attempts would never invoke the action. */
    predicate Configured() {
      Spring6? ==> p6.maxAttempts > 0
    }

    function MaxInvocations(): nat {
      match this
      case Spring6(p) => p.maxAttempts
      case Spring7(p) => p.maxRetries + 1
    }

    /** The max attempts the listener shows. */
    function ListenerMax(): nat {
      match this
      case Spring6(p) => p.maxAttempts
      case Spring7(p) => ListenerMax7(p.maxRetries)
    }

    /** The template's classifier. */
    function Retryable(): Kind -> bool {
      match this
      case Spring6(p) => (k: Kind) => MapClassify(p.classification, k)
      case Spring7(p) => (k: Kind) => ShouldRetry(p.includes, p.excludes, k)
    }
  }

  // ---------------------------------------------------------------------------
  // The staged contract.

  datatype RetrySpec = RetrySpec(name: string)

  /** An action returning a value (`Supplier<R>`). */
  datatype CallSpec<!St, V> = CallSpec(name: string, action: St -> (St, Outcome<V>))

  /** A void action (`Runnable`): it completes (`None`) or throws. */
  datatype RunSpec<!St> = RunSpec(name: string, action: St -> (St, Option<Failure>))

  /** `named(n)`: the spec carries `n`. */
  function Named(operationName: string): RetrySpec {
    RetrySpec(operationName)
  }

  /** `anonymous()`: the spec carries one freshly generated name, supplied
      here by the caller in place of `UUID.randomUUID()`. */
  function Anonymous(generatedName: string): RetrySpec {
    RetrySpec(generatedName)
  }

  function Call<St, V>(spec: RetrySpec, action: St -> (St, Outcome<V>)): CallSpec<St, V> {
    CallSpec(spec.name, action)
  }

  function RunOf<St>(spec: RetrySpec, action: St -> (St, Option<Failure>)): RunSpec<St> {
    RunSpec(spec.name, action)
  }

  /** Everything a call to execute or fallback makes observable: the state
      after it, how often the action ran, the listener's events, what the
      caller gets, and how often the fallback ran. */
  datatype Execution<St, V> = Execution(store: St, invocations: nat, events: seq<Event>, result: Result<V>, fallbackCalls: nat)

  // ---------------------------------------------------------------------------
  // The templates.

  /** The retry loop of the adapter's template. */
  function Loop<St, V>(engine: Engine, action: St -> (St, Outcome<V>), st: St): (t: Trace<St, V>)
    requires engine.Configured()
    ensures IsRun(action, engine.Retryable(), engine.MaxInvocations(), st, t)
  {
    Run(action, engine.Retryable(), engine.MaxInvocations(), st)
  }

  /** The listener's events for a run of the template. */
  function EventsOf<V>(engine: Engine, name: string, outs: seq<Outcome<V>>): seq<Event>
    requires |outs| > 0
  {
    match engine
    case Spring6(p) => Events6(name, p.maxAttempts, p.nonRetryable, outs)
    case Spring7(p) => Events7(name, p.maxRetries, engine.Retryable(), outs)
  }

  /** What Spring 7's `RetryTemplate.execute` ends with. `Escaped` stands
      for any throwable other than a `RetryException`; the loop itself never
      produces one. */
  datatype Outcome7<+V> = Value(value: V) | RetryFailed(exception: RetryException) | Escaped(failure: Failure)

  /** spring-retry with `throwLastExceptionOnExhausted`: the value, or the
      last failure itself. */
  function Template6<V>(last: Outcome<V>): Result<V> {
    match last
    case Ok(v) => Returned(v)
    case Fail(f) => Thrown(f)
  }

  /** Spring 7: the value, or a `RetryException` wrapping the last failure
      and counting the retries. */
  function Template7<V>(last: Outcome<V>, invocations: nat): Outcome7<V> {
    match last
    case Ok(v) => Value(v)
    case Fail(f) => RetryFailed(RetryException(f, if invocations > 0 then invocations - 1 else 0))
  }

  /** Spring 7 adapter's `execute`: rethrow the `RetryException`'s cause. */
  function Unwrap7<V>(r: Outcome7<V>): Result<V> {
    match r
    case Value(v) => Returned(v)
    case RetryFailed(e) => Thrown(e.cause)
    case Escaped(f) => Thrown(f)
  }

  /** Spring 6 adapter's `fallback`: catch every throwable and apply the
      fallback once. The second component counts the fallback's calls. */
  function Recover6<V>(r: Result<V>, fallback: Failure -> Result<V>): (Result<V>, nat) {
    match r
    case Returned(v) => (r, 0)
    case Thrown(f) => (fallback(f), 1)
  }

  /** Spring 7 adapter's `fallback`: catch only `RetryException` and apply
      the fallback to its cause; anything else propagates. */
  function Recover7<V>(r: Outcome7<V>, fallback: Failure -> Result<V>): (Result<V>, nat) {
    match r
    case Value(v) => (Returned(v), 0)
    case RetryFailed(e) => (fallback(e.cause), 1)
    case Escaped(f) => (Thrown(f), 0)
  }

  /** The two `fallback`s differ only on a throwable that is not a
      `RetryException`: Spring 6 recovers from it, Spring 7 lets it
      propagate without calling the fallback. */
  lemma RecoverDiffersOnlyOnEscape<V>(f: Failure, fallback: Failure -> Result<V>, v: V, n: nat)
    ensures Recover6(Thrown(f), fallback) == Recover7(RetryFailed(RetryException(f, n)), fallback) == (fallback(f), 1)
    ensures Recover6(Returned(v), fallback) == Recover7(Value(v), fallback) == (Returned(v), 0)
    ensures Recover7(Escaped(f), fallback) == (Thrown(f), 0)
  {
  }

  /** What the Spring 7 template ends with, unwrapped by the adapter, is
      what spring-retry rethrows: the value, or the last failure itself
      rather than the `RetryException` around it, whatever the retry count. */
  lemma UnwrapUndoesWrap<V>(last: Outcome<V>, invocations: nat)
    ensures Unwrap7(Template7(last, invocations)) == Template6(last)
  {
  }

  /** On anything the templates end with, Spring 7's catch of the wrapper
      and Spring 6's catch-all call the fallback equally often, on the same
      failure, and return the same. */
  lemma FallbacksAgreeOnRuns<V>(last: Outcome<V>, invocations: nat, fallback: Failure -> Result<V>)
    ensures Recover7(Template7(last, invocations), fallback) == Recover6(Template6(last), fallback)
    ensures Recover6(Template6(last), fallback).1 == (if last.Fail? then 1 else 0)
  {
  }

  /** `named(n)` and `anonymous()` fix the name every log line of the call
      carries; two anonymous specs built from distinct generated names are
      told apart in the log. */
  lemma SpecNameReachesEvents<St, V>(engine: Engine, name: string, generated: string, other: string, action: St -> (St, Outcome<V>), st: St)
    requires engine.Configured()
    ensures forall ev :: ev in Execute(engine, Call(Named(name), action), st).events ==> ev.name == name
    ensures forall ev :: ev in Execute(engine, Call(Anonymous(generated), action), st).events ==> ev.name == generated
    ensures generated != other ==> Anonymous(generated) != Anonymous(other)
  {
  }

  // ---------------------------------------------------------------------------
  // execute and fallback.

  /** `CallSpec.execute`: the action's value when the loop succeeds; when
      the policy gives up, the last failure the action threw, unwrapped. */
  function Execute<St, V>(engine: Engine, spec: CallSpec<St, V>, st: St): (e: Execution<St, V>)
    requires engine.Configured()
    ensures var t := Loop(engine, spec.action, st);
            && e.store == t.final
            && e.invocations == |t.outcomes|
            && 1 <= e.invocations <= engine.MaxInvocations()
            && (e.result.Returned? <==> t.Last().Ok?)
            && (e.result.Returned? ==> e.result.value == t.Last().value)
            && (e.result.Thrown? ==> e.result.failure == t.Last().failure)
            && e.fallbackCalls == 0
            && (forall ev :: ev in e.events ==> ev.name == spec.name && ev.max == engine.ListenerMax())
  {
    var t := Loop(engine, spec.action, st);
    var events := EventsOf(engine, spec.name, t.outcomes);
    EventsCarryRun(engine, spec.name, t);
    var result := match engine
      case Spring6(_) => Template6(t.Last())
      case Spring7(_) => Unwrap7(Template7(t.Last(), |t.outcomes|));
    Execution(t.final, |t.outcomes|, events, result, 0)
  }

  /** `CallSpec.fallback`: the same run as `execute`; a value is returned as
      is, and a failure the policy gave up on is handed once to the
      fallback, whose own result (or failure) is returned unretried. */
  function Fallback<St, V>(engine: Engine, spec: CallSpec<St, V>, fallback: Failure -> Result<V>, st: St): (e: Execution<St, V>)
    requires engine.Configured()
    ensures var x := Execute(engine, spec, st);
            && e.store == x.store && e.invocations == x.invocations && e.events == x.events
            && (x.result.Returned? ==> e.result == x.result && e.fallbackCalls == 0)
            && (x.result.Thrown? ==> e.result == fallback(x.result.failure) && e.fallbackCalls == 1)
  {
    var t := Loop(engine, spec.action, st);
    var events := EventsOf(engine, spec.name, t.outcomes);
    var (result, calls) := match engine
      case Spring6(_) => Recover6(Template6(t.Last()), fallback)
      case Spring7(_) => Recover7(Template7(t.Last(), |t.outcomes|), fallback);
    Execution(t.final, |t.outcomes|, events, result, calls)
  }

  /** A `Runnable` as the template's callback: it returns `null` (here the
      unit value) when it completes. */
  function AsCallback<St>(action: St -> (St, Option<Failure>)): St -> (St, Outcome<()>) {
    (st: St) =>
      var (next, thrown) := action(st);
      (next, if thrown.Some? then Fail(thrown.value) else Ok(()))
  }

  /** `RunSpec.execute`: completes when some invocation of the action
      completed; otherwise throws the failure of its last invocation. */
  function RunExecute<St>(engine: Engine, spec: RunSpec<St>, st: St): (e: Execution<St, ()>)
    requires engine.Configured()
    ensures var t := Loop(engine, AsCallback(spec.action), st);
            && e.store == t.final
            && e.invocations == |t.outcomes|
            && (e.result.Returned? <==> spec.action(t.LastBefore()).1.None?)
            && (e.result.Thrown? ==> Some(e.result.failure) == spec.action(t.LastBefore()).1)
            && e.fallbackCalls == 0
  {
    Execute(engine, CallSpec(spec.name, AsCallback(spec.action)), st)
  }

  /** `RunSpec.fallback`: as `RunExecute`, with the consumer called once on
      the failure the policy gave up on. */
  function RunFallback<St>(engine: Engine, spec: RunSpec<St>, fallback: Failure -> Result<()>, st: St): (e: Execution<St, ()>)
    requires engine.Configured()
    ensures var x := RunExecute(engine, spec, st);
            && e.store == x.store && e.invocations == x.invocations && e.events == x.events
            && (x.result.Returned? ==> e.result == x.result && e.fallbackCalls == 0)
            && (x.result.Thrown? ==> e.result == fallback(x.result.failure) && e.fallbackCalls == 1)
  {
    Fallback(engine, CallSpec(spec.name, AsCallback(spec.action)), fallback, st)
  }

  /** Every event of a run names the run and shows the engine's max. */
  lemma EventsCarryRun<St, V>(engine: Engine, name: string, t: Trace<St, V>)
    requires engine.Configured() && |t.outcomes| > 0 && FailedBefore(t.outcomes, |t.outcomes| - 1)
    ensures forall ev :: ev in EventsOf(engine, name, t.outcomes) ==> ev.name == name && ev.max == engine.ListenerMax()
  {
    match engine
    case Spring6(p) =>
      Events6Shape(name, p.maxAttempts, p.nonRetryable, t.outcomes);
    case Spring7(p) =>
  }

  // ---------------------------------------------------------------------------
  // What execute does for stubbed actions.

  /** The stubs of an action that throws each of `failures` in turn. */
  function Throwing<V>(failures: seq<Failure>): (script: seq<Outcome<V>>)
    ensures |script| == |failures|
    ensures forall j :: 0 <= j < |failures| ==> script[j] == Fail(failures[j])
  {
    seq(|failures|, j requires 0 <= j < |failures| => Fail(failures[j]))
  }

  /** `execute` on a stubbed action (a fresh mock has made `calls` == 0
      calls) stops at the first stub that ends the loop: its value is
      returned, its failure thrown, and the mock has been called once per
      invocation. */
  lemma ExecuteScripted<V>(engine: Engine, name: string, script: seq<Outcome<V>>, calls: nat, stop: nat)
    requires engine.Configured() && |script| > 0
    requires forall j :: 0 <= j < stop ==> Continues(script, engine.Retryable(), engine.MaxInvocations(), calls, j)
    requires !Continues(script, engine.Retryable(), engine.MaxInvocations(), calls, stop)
    ensures var e := Execute(engine, CallSpec(name, Scripted(script)), calls);
            var last := ScriptAt(script, calls + stop);
            && e.invocations == stop + 1
            && e.store == calls + stop + 1
            && e.result == (if last.Ok? then Returned(last.value) else Thrown(last.failure))
  {
    StopsAt(script, engine.Retryable(), engine.MaxInvocations(), calls, stop);
  }

  /** An action that keeps failing retryably is invoked the engine's maximum
      number of times (`maxAttempts` for Spring 6, `maxAttempts + 1` for
      Spring 7) and its last failure is thrown. */
  lemma ExecuteExhausts<St, V>(engine: Engine, spec: CallSpec<St, V>, st: St)
    requires engine.Configured()
    requires forall s :: spec.action(s).1.Fail? && engine.Retryable()(spec.action(s).1.failure.kind)
    ensures var e := Execute(engine, spec, st);
            var t := Loop(engine, spec.action, st);
            && e.invocations == engine.MaxInvocations()
            && e.result == Thrown(t.Last().failure)
  {
    AlwaysRetryableExhausts(spec.action, engine.Retryable(), engine.MaxInvocations(), st);
  }

  /** A non-retryable failure on the first invocation is thrown at once. */
  lemma ExecuteStopsOnNonRetryable<St, V>(engine: Engine, spec: CallSpec<St, V>, st: St)
    requires engine.Configured()
    requires spec.action(st).1.Fail? && !engine.Retryable()(spec.action(st).1.failure.kind)
    ensures var e := Execute(engine, spec, st);
            && e.invocations == 1
            && e.result == Thrown(spec.action(st).1.failure)
            && e.store == spec.action(st).0
  {
    FirstStops(spec.action, engine.Retryable(), engine.MaxInvocations(), st);
  }

  /** Retryable failures followed by a value within the budget: the value is
      returned after one invocation per failure plus one. */
  lemma ExecuteRetriesUntilSuccess<V>(engine: Engine, name: string, failures: seq<Failure>, v: V)
    requires engine.Configured() && |failures| < engine.MaxInvocations()
    requires forall j :: 0 <= j < |failures| ==> engine.Retryable()(failures[j].kind)
    ensures var e := Execute(engine, CallSpec(name, Scripted(Throwing<V>(failures) + [Ok(v)])), 0);
            e.invocations == |failures| + 1 && e.result == Returned(v)
  {
    var script := Throwing<V>(failures) + [Ok(v)];
    var stop := |failures|;
    forall j | 0 <= j < stop
      ensures Continues(script, engine.Retryable(), engine.MaxInvocations(), 0, j)
    {
      assert ScriptAt(script, j) == Fail(failures[j]);
    }
    assert ScriptAt(script, stop) == Ok(v);
    ExecuteScripted(engine, name, script, 0, stop);
  }

  /** Retryable failures followed by a non-retryable one within the budget:
      the non-retryable failure is thrown after one invocation per failure. */
  lemma ExecuteRetriesUntilNonRetryable<V>(engine: Engine, name: string, failures: seq<Failure>, f: Failure)
    requires engine.Configured() && |failures| < engine.MaxInvocations()
    requires forall j :: 0 <= j < |failures| ==> engine.Retryable()(failures[j].kind)
    requires !engine.Retryable()(f.kind)
    ensures var e := Execute(engine, CallSpec(name, Scripted(Throwing<V>(failures) + [Fail(f)])), 0);
            e.invocations == |failures| + 1 && e.result == Thrown(f)
  {
    var script := Throwing<V>(failures) + [Fail(f)];
    var stop := |failures|;
    forall j | 0 <= j < stop
      ensures Continues(script, engine.Retryable(), engine.MaxInvocations(), 0, j)
    {
      assert ScriptAt(script, j) == Fail(failures[j]);
    }
    assert ScriptAt(script, stop) == Fail(f);
    ExecuteScripted(engine, name, script, 0, stop);
  }
}
