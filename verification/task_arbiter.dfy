/** `TaskArbiter`: run a task exactly once by coordinating through an
    external store.

    One attempt fetches the current status, checks whether it marks the task
    as done, and otherwise marks it (the update may fail, e.g. on an
    optimistic-locking conflict). Attempts run under the retry contract; the
    task itself runs after the retry, only when the final attempt marked the
    status rather than finding it done.

    Statuses are Java references into the store, so a status is a handle `S`
    and checking or updating it goes through the store `St`. Fetch and check
    read the store; update may change it, and may change it and still fail.
    The task does external work and leaves the store as it is.
 */
module TaskArbiter {
  import opened Kinds
  import opened Executor
  import opened Adapters

  /** The outcome of one successful attempt. */
  datatype State<S> = State(alreadyDone: bool, currentStatus: S)

  /** The value variant's result: the task's value (empty when the task did
      not run or returned null) and the status of the last attempt. */
  datatype TaskResult<T, S> = TaskResult(result: Option<T>, status: S)

  /** The three store operations the caller supplies; each may throw. */
  datatype Port<!St, !S> = Port(fetch: St -> Outcome<S>, check: (St, S) -> Outcome<bool>, update: (St, S) -> (St, Outcome<()>))

  /** `alreadyDone`: one attempt against the store. */
  function AlreadyDone<St, S>(port: Port<St, S>, st: St): (r: (St, Outcome<State<S>>))
    ensures r.1.Ok? ==> port.fetch(st) == Ok(r.1.value.currentStatus)
    ensures (r.1.Ok? && r.1.value.alreadyDone) <==>
              port.fetch(st).Ok? && port.check(st, port.fetch(st).value) == Ok(true)
    ensures (r.1.Ok? && !r.1.value.alreadyDone) <==>
              port.fetch(st).Ok? && port.check(st, port.fetch(st).value) == Ok(false) &&
              port.update(st, port.fetch(st).value).1.Ok?
    ensures r.0 == (if port.fetch(st).Ok? && port.check(st, port.fetch(st).value) == Ok(false)
                    then port.update(st, port.fetch(st).value).0 else st)
    // A failing attempt fails with the exception of the first operation that
    // threw, unchanged: that is the failure the retry policy classifies.
    ensures port.fetch(st).Fail? ==> r.1 == Fail(port.fetch(st).failure)
    ensures port.fetch(st).Ok? && port.check(st, port.fetch(st).value).Fail? ==>
              r.1 == Fail(port.check(st, port.fetch(st).value).failure)
    ensures port.fetch(st).Ok? && port.check(st, port.fetch(st).value) == Ok(false) &&
            port.update(st, port.fetch(st).value).1.Fail? ==>
              r.1 == Fail(port.update(st, port.fetch(st).value).1.failure)
  {
    match port.fetch(st)
    case Fail(f) => (st, Fail(f))
    case Ok(status) =>
      match port.check(st, status)
      case Fail(f) => (st, Fail(f))
      case Ok(done) =>
        if done then (st, Ok(State(true, status)))
        else
          var (next, marked) := port.update(st, status);
          (next, if marked.Ok? then Ok(State(false, status)) else Fail(marked.failure))
  }

  /** The attempt as the retried action. */
  function Attempt<St, S>(port: Port<St, S>): St -> (St, Outcome<State<S>>) {
    (st: St) => AlreadyDone(port, st)
  }

  /** The store records the task as done: its status is fetched and checked
      as done. */
  predicate Done<St, S>(port: Port<St, S>, st: St) {
    port.fetch(st).Ok? && port.check(st, port.fetch(st).value) == Ok(true)
  }

  /** A call of `run`: the store after it, what it returns or throws, how
      often the task ran, and how often the attempt ran. */
  datatype Arbitration<St, R> = Arbitration(store: St, result: Result<R>, taskRuns: nat, attempts: nat)

  /** `run` with a value-returning task (`task` gives `None` for null). */
  function RunValue<St, S, T>(engine: Engine, spec: RetrySpec, task: St -> Outcome<Option<T>>, port: Port<St, S>, st: St): (c: Arbitration<St, TaskResult<T, S>>)
    requires engine.Configured()
    ensures var t := Loop(engine, Attempt(port), st);
            var last := t.LastBefore();
            && c.store == t.final
            && c.attempts == |t.outcomes|
            && c.taskRuns <= 1
            // The task runs exactly when the last attempt marked the status,
            // which needs the update to have succeeded.
            && (c.taskRuns == 1 <==> t.Last().Ok? && !t.Last().value.alreadyDone)
            && (c.taskRuns == 1 ==> port.update(last, port.fetch(last).value).1.Ok?)
            // A retry that gives up propagates the attempt's own failure.
            && (t.Last().Fail? ==> c.result == Thrown(t.Last().failure) && c.taskRuns == 0)
            // A failing task is not retried: its failure is the call's.
            && (c.taskRuns == 1 && task(t.final).Fail? ==> c.result == Thrown(task(t.final).failure))
            // The call returns normally exactly when the retry succeeded and
            // the task, if it ran, did not throw.
            && (c.result.Returned? <==> t.Last().Ok? && (t.Last().value.alreadyDone || task(t.final).Ok?))
            && (c.result.Returned? ==>
                  c.result.value.status == port.fetch(last).value &&
                  c.result.value.result == (if c.taskRuns == 1 then task(t.final).value else None))
  {
    var x := Execute(engine, Call(spec, Attempt(port)), st);
    match x.result
    case Thrown(f) => Arbitration(x.store, Thrown(f), 0, x.invocations)
    case Returned(state) =>
      if state.alreadyDone then Arbitration(x.store, Returned(TaskResult(None, state.currentStatus)), 0, x.invocations)
      else match task(x.store)
        case Fail(f) => Arbitration(x.store, Thrown(f), 1, x.invocations)
        case Ok(v) => Arbitration(x.store, Returned(TaskResult(v, state.currentStatus)), 1, x.invocations)
  }

  /** `run` with a void task (`task` gives the failure it throws, if any);
      it returns the status. */
  function RunVoid<St, S>(engine: Engine, spec: RetrySpec, task: St -> Option<Failure>, port: Port<St, S>, st: St): (c: Arbitration<St, S>)
    requires engine.Configured()
    ensures var t := Loop(engine, Attempt(port), st);
            var last := t.LastBefore();
            && c.store == t.final
            && c.attempts == |t.outcomes|
            && c.taskRuns <= 1
            && (c.taskRuns == 1 <==> t.Last().Ok? && !t.Last().value.alreadyDone)
            && (c.taskRuns == 1 ==> port.update(last, port.fetch(last).value).1.Ok?)
            && (t.Last().Fail? ==> c.result == Thrown(t.Last().failure) && c.taskRuns == 0)
            && (c.taskRuns == 1 && task(t.final).Some? ==> c.result == Thrown(task(t.final).value))
            && (c.result.Returned? <==> t.Last().Ok? && (t.Last().value.alreadyDone || task(t.final).None?))
            && (c.result.Returned? ==> c.result.value == port.fetch(last).value)
  {
    var x := Execute(engine, Call(spec, Attempt(port)), st);
    match x.result
    case Thrown(f) => Arbitration(x.store, Thrown(f), 0, x.invocations)
    case Returned(state) =>
      if state.alreadyDone then Arbitration(x.store, Returned(state.currentStatus), 0, x.invocations)
      else match task(x.store)
        case Some(f) => Arbitration(x.store, Thrown(f), 1, x.invocations)
        case None => Arbitration(x.store, Returned(state.currentStatus), 1, x.invocations)
  }

  // ---------------------------------------------------------------------------
  // At most once.

  /** Within stores satisfying `inv`, which every update preserves, a
      successful update leaves the store recording the task as done. */
  ghost predicate MarkingIsFinal<St(!new), S(!new)>(port: Port<St, S>, inv: St -> bool) {
    forall st, s :: inv(st) ==>
      inv(port.update(st, s).0) && (port.update(st, s).1.Ok? ==> Done(port, port.update(st, s).0))
  }

  /** Against a store that records the task as done, a call does one attempt,
      skips the task, returns the fetched status and leaves the store as it
      is. */
  lemma DoneSkips<St, S, T>(engine: Engine, spec: RetrySpec, task: St -> Outcome<Option<T>>, port: Port<St, S>, st: St)
    requires engine.Configured() && Done(port, st)
    ensures var c := RunValue(engine, spec, task, port, st);
            && c.taskRuns == 0 && c.store == st && c.attempts == 1
            && c.result == Returned(TaskResult(None, port.fetch(st).value))
  {
    FirstStops(Attempt(port), engine.Retryable(), engine.MaxInvocations(), st);
  }

  /** A call keeps the store within `inv`, and one that ran the task leaves
      a store that records it as done. */
  lemma RanMarksDone<St(!new), S(!new), T>(engine: Engine, spec: RetrySpec, task: St -> Outcome<Option<T>>, port: Port<St, S>, inv: St -> bool, st: St)
    requires engine.Configured() && MarkingIsFinal(port, inv) && inv(st)
    ensures var c := RunValue(engine, spec, task, port, st);
            && inv(c.store)
            && (c.taskRuns == 1 ==> Done(port, c.store))
  {
    var act := Attempt(port);
    forall s | inv(s)
      ensures inv(act(s).0)
    {
      assert act(s) == AlreadyDone(port, s);
    }
    RunPreserves(act, engine.Retryable(), engine.MaxInvocations(), st, inv);
    var t := Loop(engine, act, st);
    var last := t.LastBefore();
    assert inv(last);
    assert act(last) == (t.final, t.Last());
  }

  /** `run` with its task, store operations and retry fixed: a function of
      the store. */
  function RunOn<St, S, T>(engine: Engine, spec: RetrySpec, task: St -> Outcome<Option<T>>, port: Port<St, S>): St -> Arbitration<St, TaskResult<T, S>>
    requires engine.Configured()
  {
    (st: St) => RunValue(engine, spec, task, port, st)
  }

  /** `times` calls in sequence against the same store, each starting from
      the store the previous one left: the final store, the task's
      executions summed over the calls, and each call's result. */
  function Repeat<St, R>(call: St -> Arbitration<St, R>, st: St, times: nat): (r: (St, nat, seq<Result<R>>))
    ensures |r.2| == times
    decreases times
  {
    if times == 0 then (st, 0, [])
    else
      var c := call(st);
      var rest := Repeat(call, c.store, times - 1);
      (rest.0, c.taskRuns + rest.1, [c.result] + rest.2)
  }

  /** The first of `times` calls, then the rest from the store it left. */
  lemma RepeatUnfold<St, R>(call: St -> Arbitration<St, R>, st: St, times: nat, c: Arbitration<St, R>, rest: (St, nat, seq<Result<R>>))
    requires times > 0 && c == call(st) && rest == Repeat(call, c.store, times - 1)
    ensures Repeat(call, st, times) == (rest.0, c.taskRuns + rest.1, [c.result] + rest.2)
  {
  }

  /** Within stores satisfying `inv`, one call keeps the store within `inv`,
      runs the task at most once, leaves the store done if it ran it, and
      changes nothing against a store already done. */
  ghost predicate StepsAtMostOnce<St(!new), S, R>(call: St -> Arbitration<St, R>, port: Port<St, S>, inv: St -> bool) {
    forall st :: inv(st) ==>
      && inv(call(st).store)
      && call(st).taskRuns <= 1
      && (call(st).taskRuns == 1 ==> Done(port, call(st).store))
      && (Done(port, st) ==> call(st).store == st && call(st).taskRuns == 0)
  }

  /** `run` is such a call when a successful update marks the task as done. */
  lemma RunStepsAtMostOnce<St(!new), S(!new), T>(engine: Engine, spec: RetrySpec, task: St -> Outcome<Option<T>>, port: Port<St, S>, inv: St -> bool)
    requires engine.Configured() && MarkingIsFinal(port, inv)
    ensures StepsAtMostOnce(RunOn(engine, spec, task, port), port, inv)
  {
    forall st | inv(st)
      ensures var c := RunValue(engine, spec, task, port, st);
              && inv(c.store)
              && (c.taskRuns == 1 ==> Done(port, c.store))
              && (Done(port, st) ==> c.store == st && c.taskRuns == 0)
    {
      OneCallAtMostOnce(engine, spec, task, port, inv, st);
    }
  }

  /** One call keeps the store within `inv`, leaves it done if it ran the
      task, and changes nothing against a store already done. */
  lemma OneCallAtMostOnce<St(!new), S(!new), T>(engine: Engine, spec: RetrySpec, task: St -> Outcome<Option<T>>, port: Port<St, S>, inv: St -> bool, st: St)
    requires engine.Configured() && MarkingIsFinal(port, inv) && inv(st)
    ensures var c := RunValue(engine, spec, task, port, st);
            && inv(c.store)
            && (c.taskRuns == 1 ==> Done(port, c.store))
            && (Done(port, st) ==> c.store == st && c.taskRuns == 0)
  {
    RanMarksDone(engine, spec, task, port, inv, st);
    if Done(port, st) {
      DoneSkips(engine, spec, task, port, st);
    }
  }

  /** Chaining calls that each run the task at most once, and never against
      a store already done, runs it at most once in all. */
  lemma {:induction false} RepeatAtMostOnce<St(!new), S, R>(call: St -> Arbitration<St, R>, port: Port<St, S>, inv: St -> bool, st: St, times: nat)
    requires StepsAtMostOnce(call, port, inv) && inv(st)
    ensures var r := Repeat(call, st, times);
            && inv(r.0)
            && r.1 <= 1
            && (r.1 == 1 ==> Done(port, r.0))
            && (Done(port, st) ==> r.0 == st && r.1 == 0)
    decreases times
  {
    if times > 0 {
      RepeatAtMostOnce(call, port, inv, call(st).store, times - 1);
    }
  }

  /** Calls against a store on which a call changes nothing and runs no
      task all give that call's result, and leave the store as it is. */
  lemma {:induction false} RepeatOnDone<St, R>(call: St -> Arbitration<St, R>, st: St, times: nat)
    requires call(st).store == st && call(st).taskRuns == 0
    ensures var r := Repeat(call, st, times);
            && r.0 == st && r.1 == 0
            && forall j :: 0 <= j < times ==> r.2[j] == call(st).result
    decreases times
  {
    if times > 0 {
      RepeatOnDone(call, st, times - 1);
      var rest := Repeat(call, st, times - 1);
      assert Repeat(call, st, times).2 == [call(st).result] + rest.2;
    }
  }

  /** Calls `run` `times` times in sequence against the same store, as
      `Repeat` describes, counting the task's executions: at most one. */
  method RunRepeatedly<St(!new), S(!new), T>(engine: Engine, spec: RetrySpec, task: St -> Outcome<Option<T>>, port: Port<St, S>, inv: St -> bool, st: St, times: nat)
    returns (store: St, taskRuns: nat, results: seq<Result<TaskResult<T, S>>>)
    requires engine.Configured() && MarkingIsFinal(port, inv) && inv(st)
    ensures (store, taskRuns, results) == Repeat(RunOn(engine, spec, task, port), st, times)
    ensures |results| == times
    ensures taskRuns <= 1
    ensures taskRuns == 1 ==> Done(port, store)
    ensures Done(port, st) ==> taskRuns == 0 && store == st
    decreases times
  {
    if times == 0 {
      store, taskRuns, results := st, 0, [];
    } else {
      var c := RunValue(engine, spec, task, port, st);
      OneCallAtMostOnce(engine, spec, task, port, inv, st);
      var restRuns, restResults;
      store, restRuns, restResults := RunRepeatedly(engine, spec, task, port, inv, c.store, times - 1);
      taskRuns, results := c.taskRuns + restRuns, [c.result] + restResults;
      RepeatUnfold(RunOn(engine, spec, task, port), st, times, c, (store, restRuns, restResults));
    }
  }

  /** The void task seen as a value task that returns null. */
  function AsValueTask<St>(task: St -> Option<Failure>): St -> Outcome<Option<()>> {
    (st: St) => if task(st).Some? then Fail(task(st).value) else Ok(None)
  }

  /** The void `run` is the value `run` of a task returning null, with the
      status in place of the `TaskResult`: same attempts, same store, same
      task executions, same failure; so what is proved of the value variant,
      at most once included, holds of the void one. */
  lemma VoidRunMatchesValueRun<St, S>(engine: Engine, spec: RetrySpec, task: St -> Option<Failure>, port: Port<St, S>, st: St)
    requires engine.Configured()
    ensures var v := RunVoid(engine, spec, task, port, st);
            var c := RunValue(engine, spec, AsValueTask(task), port, st);
            && v.store == c.store && v.attempts == c.attempts && v.taskRuns == c.taskRuns
            && (v.result.Thrown? <==> c.result.Thrown?)
            && (v.result.Thrown? ==> v.result.failure == c.result.failure)
            && (v.result.Returned? ==> c.result.value == TaskResult(None, v.result.value))
  {
  }
}
