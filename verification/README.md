# retry-fluent in Dafny

A model of the core of retry-fluent. The model covers:

- the staged `Retry` contract (`named`/`anonymous` → `call`/`run` → `execute`/`fallback`);
- its two Spring adapters:
  - Spring 6 uses spring-retry's `RetryTemplate`, configured to rethrow the last exception;
  - Spring 7 uses Spring Framework's core `RetryTemplate`, which wraps the last failure in a `RetryException`;
- the two `RetryLoggerListener`s, reduced to the events they log;
- the Spring 7 `RetryUtils` name-to-class conversion;
- `TaskArbiter`, which runs a task at most once by a fetch/check/update protocol against an external store. Its documentation says "exactly once"; see "## Left out". The protocol runs under the retry contract.

The modules follow the program:

- `Kinds`: exception classes as superclass chains; `isInstance` as a prefix test.
- `Classifier`: the Spring 7 include/exclude decision and the Spring 6 classification map.
- `RetryUtils`: class-name conversion. A registry stands in for `Class.forName`.
- `Executor`: the retry loop, which belongs to Spring and not to this repository. It is an explicit reference model over a state-passing action. A scripted action stands for a Mockito stub whose last answer repeats.
- `Listeners`: the events of both loggers for a run.
- `Adapters`: the staged contract, `execute` and `fallback` for both adapters, and the invocation counts the tests pin down.
- `TaskArbiter`: one attempt, both `run` overloads, and at-most-once over repeated sequential calls.
- `Scenarios`: the repository's tests as lemmas over the model.

Four behaviours of the code that are easy to misread:

- **Empty include list under Spring 6.** In Spring 6 the policy is `SimpleRetryPolicy` with the classification map. An empty include list therefore makes nothing retryable, not everything (`Classifier.EmptyMapRetriesNothing`). The include/exclude rule "empty includes = all retryable" holds only for Spring 7 (`Classifier.ShouldRetry`).
- **Spring 7 attempt budget.** In Spring 7, `retry.maxAttempts` is handed to the backoff as a number of retries. The action is invoked up to `maxAttempts + 1` times, and the listener shows `maxAttempts + 1` (`Engine.MaxInvocations`, `Listeners.ListenerMax7`).
- **"Terminated" in the Spring 6 listener.** The listener decides "terminated" only by whether the throwable is an instance of a configured non-retryable class. It does not consult the policy. A failure of a kind in neither list stops the loop after one invocation (the map's default is non-retryable), yet it is logged as "exhausted 1/3" (`Scenarios.Spring6ListenerUnlistedKindReportedExhausted`).
- **Included class below an excluded one under Spring 6.** The classification map decides by the nearest listed superclass, so with `IllegalArgumentException` included and `RuntimeException` excluded, an `IllegalArgumentException` is retried; the Spring 7 rule lets the exclude win. The Spring 6 listener, which checks only the non-retryable list, then logs the run that spent its whole budget as "terminated" (`Scenarios.Spring6IncludedBelowExcludedRetried`).

## Model

| member | source | states |
|---|---|---|
| Classifier.FindMatch | retry-fluent-spring6/src/main/java/dev/stockman/retry/spring6/RetryLoggerListener.java:46-47 | the scan finds a match exactly when some listed class is the failure's class or a superclass of it; it reports the first such index |
| Classifier.Classify | retry-fluent-spring7/src/main/java/dev/stockman/retry/spring7/RetryConfiguration.java:50-54 | a failure is retried iff it matches no excluded class and either the include list is empty or some included class matches |
| Classifier.ExcludeWins | retry-fluent-spring7/src/main/java/dev/stockman/retry/spring7/RetryConfiguration.java:50-54 | under the Spring 7 include/exclude policy an instance of an excluded class is never retried, even when a superclass of it is included |
| Classifier.IncludedSubtypeRetried | retry-fluent-spring7/src/main/java/dev/stockman/retry/spring7/RetryConfiguration.java:50-54 | an included class and every subclass of it are retried unless they are instances of an excluded class |
| Classifier.ClassificationMap | retry-fluent-spring6/src/test/java/dev/stockman/retry/spring6/RetryUtilsTest.java:26-37 | the map has one key per distinct listed class; included classes map to retryable, excluded ones to non-retryable, and a class in both lists to non-retryable |
| Classifier.NearestKey | retry-fluent-spring6/src/main/java/dev/stockman/retry/spring6/RetryConfiguration.java:38 | the lookup returns a key of the map that is a superclass of the failure's class, and none is nearer to it; it returns nothing only when no key is a superclass |
| Classifier.EmptyMapRetriesNothing | retry-fluent-spring6/src/test/java/dev/stockman/retry/spring6/RetryUtilsTest.java:39-54 | with the empty classification map that empty lists produce, no failure is retryable |
| Classifier.MapClassifyAgrees | retry-fluent-spring6/src/main/java/dev/stockman/retry/spring6/RetryConfiguration.java:32-39 | the map classifier agrees with the include/exclude rule when includes are non-empty and no included class lies below an excluded one |
| RetryUtils.ConvertToThrowableClass | retry-fluent-spring7/src/main/java/dev/stockman/retry/spring7/RetryUtils.java:27-39 | a name converts iff the class exists and is a Throwable; otherwise it is rejected as not found or as not a Throwable, and the error names the class |
| RetryUtils.MessageNamesClass | retry-fluent-spring7/src/main/java/dev/stockman/retry/spring7/RetryUtils.java:33-37 | every rejection message begins with "Class " and the rejected name |
| RetryUtils.ThrowableList | retry-fluent-spring7/src/main/java/dev/stockman/retry/spring7/RetryUtils.java:13-21 | null gives the empty list; the list converts iff every name converts, keeping length and order; otherwise the error is the first bad name's error, and no partial list is returned |
| Executor.Drive | retry-fluent-spring6/src/main/java/dev/stockman/retry/spring6/RetryConfiguration.java:24-28 | from `n` spent invocations the loop chains each invocation's state into the next; it continues only past retryable failures within the budget and stops at a value, a non-retryable failure or the last allowed invocation |
| Executor.Run | retry-fluent-spring6/src/main/java/dev/stockman/retry/spring6/RetryConfiguration.java:24-38 | a run satisfies the declarative run description: between 1 and max invocations, every one but the last a retryable failure, the last one stopping the loop |
| Executor.RunUnique | retry-fluent-spring6/src/main/java/dev/stockman/retry/spring6/RetryConfiguration.java:24-38 | exactly one trace satisfies the run description, so a property of the description is a property of the loop |
| Executor.ScriptedRun | retry-fluent-spring6/src/test/java/dev/stockman/retry/spring6/RetryConfigurationTest.java:105-121 | a run of a stubbed action consumes consecutive stubs, one per invocation, and advances the call counter by the invocation count |
| Executor.Invocations | retry-fluent-spring6/src/test/java/dev/stockman/retry/spring6/RetryConfigurationTest.java:65-155 | scanning the stubs for the first one that stops the loop yields exactly the loop's invocation count, between 1 and max |
| Executor.StopsAt | retry-fluent-spring6/src/test/java/dev/stockman/retry/spring6/RetryConfigurationTest.java:123-155 | when the stubs before position `stop` fail retryably within budget and stub `stop` stops the loop, the run has `stop + 1` invocations and ends with that stub |
| Executor.AlwaysRetryableExhausts | retry-fluent-spring6/src/test/java/dev/stockman/retry/spring6/RetryConfigurationTest.java:65-75 | an action that always fails retryably is invoked exactly max times and ends on a failure |
| Executor.FirstStops | retry-fluent-spring6/src/test/java/dev/stockman/retry/spring6/RetryConfigurationTest.java:77-87 | a first invocation that succeeds or fails non-retryably is the only one; its outcome and state are the run's |
| Executor.RunPreserves | task-arbiter/src/main/java/dev/stockman/task/arbiter/TaskArbiter.java:44 | a store property that every attempt preserves holds of every store the retried attempts see, and of the final one |
| Listeners.OnErrorNumbersInvocation | retry-fluent-spring6/src/main/java/dev/stockman/retry/spring6/RetryLoggerListener.java:24-30 | `onError` for a run's `j`-th invocation, all failures so far, reads a count that already includes this failure and logs it as failed attempt `j + 1` with that failure, the run's name and the max |
| Listeners.OnSuccessNumbersInvocation | retry-fluent-spring6/src/main/java/dev/stockman/retry/spring6/RetryLoggerListener.java:32-37 | `onSuccess` after `j` failures logs the invocation as succeeded attempt `j + 1` |
| Listeners.CloseReportsRunEnd | retry-fluent-spring6/src/main/java/dev/stockman/retry/spring6/RetryLoggerListener.java:39-55 | `close` logs nothing after a success; after a failed run of `n` invocations it logs one event numbered `n`, "terminated" iff the failure is an instance of a listed non-retryable class, otherwise "exhausted" |
| Listeners.AttemptEvent6Numbered | retry-fluent-spring6/src/main/java/dev/stockman/retry/spring6/RetryLoggerListener.java:24-37 | after failures only, invocation `j` is logged as attempt `j + 1`: a failure via the already-incremented count, a success via count + 1 |
| Listeners.Events6Shape | retry-fluent-spring6/src/main/java/dev/stockman/retry/spring6/RetryLoggerListener.java:24-55 | one event per invocation, numbered 1.. and failed or succeeded by outcome; after a failed run one more event numbered with the invocation count, "terminated" iff the failure is an instance of a non-retryable class, else "exhausted"; nothing more after a success; every event carries the name and max |
| Listeners.OnRetryableExecutionNumbersInvocation | retry-fluent-spring7/src/main/java/dev/stockman/retry/spring7/RetryLoggerListener.java:19-26 | `onRetryableExecution` after the `j`-th invocation logs attempt `j + 1`, failed with the invocation's exception or succeeded, by its outcome |
| Listeners.OnExhaustionDecides | retry-fluent-spring7/src/main/java/dev/stockman/retry/spring7/RetryLoggerListener.java:27-35 | `onRetryPolicyExhaustion` at the end of a failed run of `n` invocations logs attempt `n` with the cause; "exhausted" iff the policy would still retry the cause, which happens only when the budget is spent; "terminated" iff the cause is not retryable |
| Listeners.Events7Meaning | retry-fluent-spring7/src/main/java/dev/stockman/retry/spring7/RetryLoggerListener.java:15-35 | one event per invocation numbered retryCount + 1; after a failed run a final event numbered with the invocation count, "exhausted" iff the budget was used on a retryable failure, "terminated" iff the failure is non-retryable; the max shown is the backoff's maxAttempts + 1 |
| Adapters.UnwrapUndoesWrap | retry-fluent-spring7/src/main/java/dev/stockman/retry/spring7/SpringRetryTemplateAdapter.java:58-65 | wrapping the last outcome as Spring 7's template does and unwrapping it as the adapter's `execute` does gives exactly what Spring 6 returns or rethrows: the value, or the last failure itself and not the `RetryException` |
| Adapters.FallbacksAgreeOnRuns | retry-fluent-spring6/src/main/java/dev/stockman/retry/spring6/SpringRetryTemplateAdapter.java:64-71 | on every outcome the templates can end with, Spring 6's catch-all and Spring 7's catch of `RetryException` call the fallback the same number of times (once iff the run failed), on the same failure, and return the same |
| Adapters.SpecNameReachesEvents | retry-fluent-spring6/src/main/java/dev/stockman/retry/spring6/SpringRetryTemplateAdapter.java:21-29 | `named(n)` makes every log line of the call carry `n`; `anonymous()` does the same with its generated name, and distinct generated names give distinct specs; the Spring 7 adapter's `named` and `anonymous` (its lines 20-28) are the same |
| Adapters.RecoverDiffersOnlyOnEscape | retry-fluent-spring7/src/main/java/dev/stockman/retry/spring7/SpringRetryTemplateAdapter.java:67-74 | both fallbacks apply the fallback once to the original failure and pass a value through; only Spring 7 lets a throwable that is not a `RetryException` propagate without calling it |
| Adapters.Execute | retry-fluent-api/src/main/java/dev/stockman/retry/Retry.java:58-65 | `execute` returns the value of the last invocation when it succeeded and otherwise throws that invocation's own failure; invocations are between 1 and the engine's max; every event names the run and shows the engine's max |
| Adapters.Fallback | retry-fluent-api/src/main/java/dev/stockman/retry/Retry.java:67-74 | `fallback` runs the same loop as `execute`; it returns the value untouched, or calls the fallback exactly once on the failure `execute` would throw and returns its result unretried |
| Adapters.RunExecute | retry-fluent-api/src/main/java/dev/stockman/retry/Retry.java:80-87 | the void `execute` completes iff the last invocation completed, otherwise it throws that invocation's failure |
| Adapters.RunFallback | retry-fluent-api/src/main/java/dev/stockman/retry/Retry.java:89-95 | the void `fallback` equals the void `execute` on a completed run and otherwise calls the consumer once on the failure |
| Adapters.EventsCarryRun | retry-fluent-spring6/src/main/java/dev/stockman/retry/spring6/SpringRetryTemplateAdapter.java:73-77 | every listener event of a run carries the spec's name and the engine's max |
| Adapters.ExecuteScripted | retry-fluent-spring6/src/test/java/dev/stockman/retry/spring6/RetryConfigurationTest.java:89-155 | on a stubbed action, `execute` stops at the first stub that ends the loop, returns its value or throws its failure, and calls the mock once per invocation |
| Adapters.ExecuteExhausts | retry-fluent-spring6/src/test/java/dev/stockman/retry/spring6/RetryConfigurationTest.java:65-75 | an always-retryable failure gives exactly the engine's max invocations and the last failure is thrown |
| Adapters.ExecuteStopsOnNonRetryable | retry-fluent-spring6/src/test/java/dev/stockman/retry/spring6/RetryConfigurationTest.java:77-87 | a non-retryable first failure gives one invocation and is thrown as is |
| Adapters.ExecuteRetriesUntilSuccess | retry-fluent-spring6/src/test/java/dev/stockman/retry/spring6/RetryConfigurationTest.java:89-121 | k retryable failures then a value, with k below the max, give k + 1 invocations and return the value |
| Adapters.ExecuteRetriesUntilNonRetryable | retry-fluent-spring6/src/test/java/dev/stockman/retry/spring6/RetryConfigurationTest.java:123-155 | k retryable failures then a non-retryable one give k + 1 invocations and throw the non-retryable failure |
| TaskArbiter.AlreadyDone | task-arbiter/src/main/java/dev/stockman/task/arbiter/TaskArbiter.java:71-79 | an attempt reports done iff the fetched status checks as done, without updating; it reports not done iff the check says not done and the update succeeds; it reports the fetched status; only the update changes the store; a failing attempt fails with the exception of the first operation that threw (fetch, check or update), unchanged |
| TaskArbiter.RunValue | task-arbiter/src/main/java/dev/stockman/task/arbiter/TaskArbiter.java:43-50 | the call returns normally iff the retry succeeded and the task, if it ran, did not throw; the task runs at most once, exactly when the last attempt marked the status, so only after a successful update; a retry that gives up propagates the attempt's failure with no task run; a task failure is not retried; the result is the task's nullable value or empty, with the status fetched by the last attempt |
| TaskArbiter.RunVoid | task-arbiter/src/main/java/dev/stockman/task/arbiter/TaskArbiter.java:63-69 | the call returns normally iff the retry succeeded and the task, if it ran, completed; then it returns the status fetched by the last attempt; otherwise as for the value variant |
| TaskArbiter.VoidRunMatchesValueRun | task-arbiter/src/main/java/dev/stockman/task/arbiter/TaskArbiter.java:63-69 | the void `run` has the same attempts, store, task executions and failure as the value `run` of a task returning null |
| TaskArbiter.DoneSkips | task-arbiter/src/test/java/dev/stockman/task/arbiter/TaskArbiterTest.java:42-57 | against a store already done, a call makes one attempt, skips the task, leaves the store alone and returns an empty result with the fetched status |
| TaskArbiter.RanMarksDone | task-arbiter/src/test/java/dev/stockman/task/arbiter/TaskArbiterTest.java:79-96 | a call keeps the store within an invariant that updates preserve, and a call that ran the task leaves the store recording it as done |
| TaskArbiter.OneCallAtMostOnce | task-arbiter/src/main/java/dev/stockman/task/arbiter/TaskArbiter.java:43-50 | when a successful update marks the store done, one call of `run` keeps the store invariant, leaves the store done if it ran the task, and against a store already done changes nothing and runs nothing |
| TaskArbiter.RunStepsAtMostOnce | task-arbiter/src/main/java/dev/stockman/task/arbiter/TaskArbiter.java:43-50 | `run`, as a function of the store, is a call that runs the task at most once and never against a store already done, for every store in the invariant |
| TaskArbiter.RepeatAtMostOnce | task-arbiter/src/test/java/dev/stockman/task/arbiter/TaskArbiterTest.java:98-125 | chaining any number of calls that each run the task at most once, never against a store already done, and leave the store done after running it, runs the task at most once in all and never when the store starts out done |
| TaskArbiter.RepeatOnDone | task-arbiter/src/test/java/dev/stockman/task/arbiter/TaskArbiterTest.java:42-57 | any number of chained calls against a store on which a call changes nothing and runs nothing leave it unchanged, run nothing, and each give that call's result |
| TaskArbiter.RunRepeatedly | task-arbiter/src/test/java/dev/stockman/task/arbiter/TaskArbiterTest.java:98-125 | calling `run` `times` times in sequence, each call from the store the previous one left, yields exactly the chained calls' final store, summed task executions and results; the task runs at most once in all, leaves the store done if it ran, and never runs when the store starts out done |
| Scenarios.Spring6Decisions | retry-fluent-spring6/src/test/java/dev/stockman/retry/spring6/RetryConfigurationTest.java:22-30 | under the test configuration `RuntimeException` is retryable, while `IllegalArgumentException` and an unlisted `IOException` are not; there are 3 attempts |
| Scenarios.Spring6RetryableException | retry-fluent-spring6/src/test/java/dev/stockman/retry/spring6/RetryConfigurationTest.java:65-75 | `execute` then `fallback` on an always-failing mock make 3 + 3 = 6 calls; the first throws the failure, the second returns the fallback's value |
| Scenarios.Spring6ThreeInvocations | retry-fluent-spring6/src/test/java/dev/stockman/retry/spring6/RetryConfigurationTest.java:105-155 | two `RuntimeException` stubs in a row lead to exactly three invocations ending on the third stub |
| Scenarios.Spring6RetryTwiceThenSuccess | retry-fluent-spring6/src/test/java/dev/stockman/retry/spring6/RetryConfigurationTest.java:105-121 | two failures then a value, twice: both `execute` and `fallback` return the value, after six calls in all, and the fallback is not called |
| Scenarios.Spring6RetryTwiceThenNonRetryable | retry-fluent-spring6/src/test/java/dev/stockman/retry/spring6/RetryConfigurationTest.java:139-155 | two failures then `IllegalArgumentException`, twice: `execute` throws it, `fallback` returns the fallback's value, after six calls |
| Scenarios.Spring6ListenerExhausted | retry-fluent-spring6/src/test/java/dev/stockman/retry/spring6/RetryConfigurationTest.java:303-325 | a named void run recovered by a no-op fallback, whose action always throws, calls the action three times and logs failed 1, 2, 3 and exhausted 3, all with the run's name and max 3 |
| Scenarios.Spring6ListenerUnlistedKindReportedExhausted | retry-fluent-spring6/src/main/java/dev/stockman/retry/spring6/RetryLoggerListener.java:45-53 | a failure in neither list stops after one invocation but is logged as exhausted 1/3 |
| Scenarios.Spring6IncludedBelowExcludedRetried | retry-fluent-spring6/src/main/java/dev/stockman/retry/spring6/RetryLoggerListener.java:45-53 | with `IllegalArgumentException` included and `RuntimeException` excluded, Spring 6 retries an `IllegalArgumentException` while Spring 7 does not; an always-failing Spring 6 run spends all 3 attempts and its last event is "terminated" 3/3 |
| Scenarios.DuplicateKindIsNonRetryable | retry-fluent-spring6/src/test/java/dev/stockman/retry/spring6/RetryUtilsTest.java:80-89 | a class listed as both retryable and non-retryable yields a one-entry map with value non-retryable |
| Scenarios.Spring7ArbiterDecisions | task-arbiter/src/test/java/dev/stockman/task/arbiter/TaskArbiterTest.java:25-33 | the arbiter tests' Spring 7 policy retries `RuntimeException` and allows three invocations |
| Scenarios.ArbiterUpdateAddsThenThrowsSkips | task-arbiter/src/test/java/dev/stockman/task/arbiter/TaskArbiterTest.java:59-77 | an update that adds and then throws makes the second attempt see the task as done, so the task is skipped and the status has size two |
| Scenarios.ArbiterExecutesOnlyOnce | task-arbiter/src/test/java/dev/stockman/task/arbiter/TaskArbiterTest.java:98-125 | five chained calls against the test store, starting at size one, run the task exactly once: the first returns the task's value and leaves size two, the other four return empty results |
| Scenarios.Spring7ListenerExhausted | retry-fluent-spring7/src/main/java/dev/stockman/retry/spring7/RetryLoggerListener.java:19-34 | with two retries, an always-failing run logs failed 1/3, 2/3, 3/3 and exhausted 3/3 under the run's name |
| Scenarios.ConvertValidNames | retry-fluent-spring7/src/test/java/dev/stockman/retry/spring7/RetryUtilsTest.java:25-50 | two exception names convert to their classes in order, and null converts to the empty list |
| Scenarios.ConvertNonThrowable | retry-fluent-spring7/src/test/java/dev/stockman/retry/spring7/RetryUtilsTest.java:52-62 | `java.lang.String` is rejected with "Class java.lang.String is not a subclass of java.lang.Throwable" |
| Scenarios.ConvertUnknown | retry-fluent-spring7/src/test/java/dev/stockman/retry/spring7/RetryUtilsTest.java:64-73 | an unknown name is rejected with "Class java.lang.NoSuchClass not found" |

## Left out

- Backoff delays, their exponential growth, ceiling and jitter: wall-clock time and randomness that change neither what is invoked nor what is returned.
- Both `RetryConfiguration` classes are dependency-injection wiring. Their values are parameters: `Policy6`, `Policy7`, and the listener's max.
- Log formatting through SLF4J: an event is the data its log line carries.
- `UUID.randomUUID()` in `anonymous()` becomes a caller-supplied name (`Adapters.Anonymous`).
- `Class.forName` is replaced by a registry from class names to superclass chains.
- `NamedRetryable` is folded into the Spring 7 adapter: the name travels with the spec.
- Spring 6's `RetryUtils.retryableExceptions` source is not part of this model. Its behaviour is taken from its tests (`Classifier.ClassificationMap`). spring-retry's nearest-superclass classifier is modelled from its documented behaviour (`Classifier.NearestKey`).
- Spring's loop internals are assumed, not read:
  - Spring 7 calls `onRetryableExecution` once per invocation, the first included;
  - `RetryException.getRetryCount()` is the invocation count minus one;
  - the `RetryException`'s cause is the last invocation's failure (`Adapters.Template7`), which `Adapters.UnwrapUndoesWrap` relies on;
  - at the `j`-th invocation (0-based), `RetryState.getRetryCount()` is `j` and `getLastException()` is that invocation's own failure (`Listeners.StateAfter`);
  - `onRetryPolicyExhaustion` is called whenever the loop ends on a failure, also when a non-retryable failure ends it before the budget is spent (`Listeners.Events7`).
- The Spring 7 template never produces a throwable other than `RetryException` in this model, so `Recover7`'s propagate branch is reachable only through `Adapters.RecoverDiffersOnlyOnEscape`.
- Concurrent callers racing on one arbiter store: the core has no locking and the tests are sequential, so only sequential calls are modelled.
- `TaskArbiter.RepeatAtMostOnce`: the class documentation promises the task is "executed exactly once"; the model proves only at most once. An update that changes the store and then throws makes the next attempt, and every later call, find the task done, so it never runs (`Scenarios.ArbiterUpdateAddsThenThrowsSkips`); "exactly once" holds only when some call's update succeeds (`Scenarios.ArbiterExecutesOnlyOnce`).
- The task of `TaskArbiter` leaves the store unchanged; external side effects are out of scope.
- `TaskArbiter.Port`: the caller's `fetchStatus` supplier and `checkState` function are modelled as reads of the store without side effects; in Java they may have any. Only `updateState` may change the store.
- `Kinds.Failure`: a thrown exception is reduced to its class and message. Object identity, the cause chain and suppressed exceptions are not modelled, so "the original failure, not a wrapper" is established up to class and message.
- `Executor.Run` requires at least one invocation. Spring 6 with `maxAttempts = 0` would never invoke the action, which is not modelled (`Engine.Configured`).
