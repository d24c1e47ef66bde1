/** The repository's test scenarios, stated over the model.

    The Spring 6 configuration is three attempts, `RuntimeException`
    retryable and `IllegalArgumentException` non-retryable; the arbiter runs
    under the Spring 7 adapter with two retries and the same lists. Mocks are
    scripted actions whose state counts their calls.
 */
module Scenarios {
  import opened Kinds
  import opened Classifier
  import opened Executor
  import opened Listeners
  import opened Adapters
  import opened TaskArbiter
  import opened RetryUtils

  const ExceptionKind := Kind(["java.lang.Object", "java.lang.Throwable", "java.lang.Exception"])
  const RuntimeKind := Kind(ExceptionKind.lineage + ["java.lang.RuntimeException"])
  const IllegalArgumentKind := Kind(RuntimeKind.lineage + ["java.lang.IllegalArgumentException"])
  const IOKind := Kind(ExceptionKind.lineage + ["java.io.IOException"])

  const Runtime := Failure(RuntimeKind, "Test exception")
  const IllegalArgument := Failure(IllegalArgumentKind, "Test exception")

  const Spring6Test := Spring6(Spring6Policy(3, [RuntimeKind], [IllegalArgumentKind]))
  const Spring7Arbiter := Spring7(Policy7(2, [RuntimeKind], [IllegalArgumentKind]))

  /** The Spring 6 test policy's decisions. */
  lemma Spring6Decisions()
    ensures Spring6Test.Retryable()(RuntimeKind)
    ensures !Spring6Test.Retryable()(IllegalArgumentKind)
    ensures !Spring6Test.Retryable()(IOKind)
    ensures Spring6Test.MaxInvocations() == 3
  {
    var m := ClassificationMap([RuntimeKind], [IllegalArgumentKind]);
    assert RuntimeKind != IllegalArgumentKind by {
      assert |RuntimeKind.lineage| != |IllegalArgumentKind.lineage|;
    }
    assert IllegalArgumentKind.lineage[..|IllegalArgumentKind.lineage|] == IllegalArgumentKind.lineage;
    assert RuntimeKind.lineage[..|RuntimeKind.lineage|] == RuntimeKind.lineage;
    assert NearestKey(m, RuntimeKind, 4) == Some(RuntimeKind);
    assert NearestKey(m, IllegalArgumentKind, 5) == Some(IllegalArgumentKind);
    forall t | t in m
      ensures !IsA(IOKind, t)
    {
      assert t.lineage[3] != IOKind.lineage[3];
    }
    var r := NearestKey(m, IOKind, 4);
    assert r.None?;
  }

  /** A mock that always throws `RuntimeException`, called through
      `execute` and then `fallback`: three invocations each, six in all; the
      failure is rethrown, then handed to the fallback. */
  lemma Spring6RetryableException()
    ensures var spec := Call(Anonymous("first"), Scripted<string>([Fail(Runtime)]));
            var e := Execute(Spring6Test, spec, 0);
            var f := Fallback(Spring6Test, spec, (_: Failure) => Returned("Fallback"), e.store);
            && e.invocations == 3 && e.result == Thrown(Runtime)
            && f.invocations == 3 && f.result == Returned("Fallback") && f.fallbackCalls == 1
            && f.store == 6
  {
    var script: seq<Outcome<string>> := [Fail(Runtime)];
    Spring6ThreeInvocations(script, 0);
    Spring6ThreeInvocations(script, 3);
  }

  /** Under the Spring 6 test policy, a stubbed action whose next two stubs
      throw `RuntimeException` is invoked three times. */
  lemma Spring6ThreeInvocations(script: seq<Outcome<string>>, calls: nat)
    requires |script| > 0
    requires ScriptAt(script, calls) == Fail(Runtime) && ScriptAt(script, calls + 1) == Fail(Runtime)
    ensures var e := Execute(Spring6Test, Call(Anonymous("first"), Scripted(script)), calls);
            var last := ScriptAt(script, calls + 2);
            && e.invocations == 3 && e.store == calls + 3
            && e.result == (if last.Ok? then Returned(last.value) else Thrown(last.failure))
  {
    Spring6Decisions();
    var r := Spring6Test.Retryable();
    assert Continues(script, r, 3, calls, 0);
    assert Continues(script, r, 3, calls, 1);
    assert !Continues(script, r, 3, calls, 2);
    ExecuteScripted(Spring6Test, "first", script, calls, 2);
  }

  /** Two `RuntimeException`s then a value, scripted twice: `execute` and
      `fallback` both return the value, after three invocations each. */
  lemma Spring6RetryTwiceThenSuccess()
    ensures var ok: Outcome<string> := Ok("Retry once, then succeed");
            var spec := Call(Anonymous("first"), Scripted([Fail(Runtime), Fail(Runtime), ok, Fail(Runtime), Fail(Runtime), ok]));
            var e := Execute(Spring6Test, spec, 0);
            var f := Fallback(Spring6Test, spec, (_: Failure) => Returned("Fallback"), e.store);
            && e.result == Returned("Retry once, then succeed")
            && f.result == Returned("Retry once, then succeed") && f.fallbackCalls == 0
            && f.store == 6
  {
    var ok: Outcome<string> := Ok("Retry once, then succeed");
    var script := [Fail(Runtime), Fail(Runtime), ok, Fail(Runtime), Fail(Runtime), ok];
    var spec := Call(Anonymous("first"), Scripted(script));
    Spring6ThreeInvocations(script, 0);
    var e := Execute(Spring6Test, spec, 0);
    assert e.store == 3 && e.result == Returned("Retry once, then succeed");
    Spring6ThreeInvocations(script, 3);
    var f := Fallback(Spring6Test, spec, (_: Failure) => Returned("Fallback"), 3);
    assert f.store == 6 && f.result == Returned("Retry once, then succeed");
  }

  /** Two `RuntimeException`s then an `IllegalArgumentException`, scripted
      twice: it is rethrown by `execute` and handed to the fallback, after
      three invocations each. */
  lemma Spring6RetryTwiceThenNonRetryable()
    ensures var spec := Call(Anonymous("first"), Scripted<string>([Fail(Runtime), Fail(Runtime), Fail(IllegalArgument),
                                                                   Fail(Runtime), Fail(Runtime), Fail(IllegalArgument)]));
            var e := Execute(Spring6Test, spec, 0);
            var f := Fallback(Spring6Test, spec, (_: Failure) => Returned("Fallback"), e.store);
            && e.result == Thrown(IllegalArgument)
            && f.result == Returned("Fallback") && f.fallbackCalls == 1
            && f.store == 6
  {
    var script: seq<Outcome<string>> := [Fail(Runtime), Fail(Runtime), Fail(IllegalArgument), Fail(Runtime), Fail(Runtime), Fail(IllegalArgument)];
    Spring6ThreeInvocations(script, 0);
    Spring6ThreeInvocations(script, 3);
  }

  /** A void service method that always throws `RuntimeException`; its
      state counts the calls. */
  const AlwaysThrows: nat -> (nat, Option<Failure>) := (n: nat) => (n + 1, Some(Runtime))

  /** The Spring 6 listener for a named void run, recovered by a no-op
      fallback, whose action always throws `RuntimeException`: three calls,
      logged failed 1/3, 2/3, 3/3, then exhausted 3/3. */
  lemma Spring6ListenerExhausted()
    ensures var spec := RunOf(Named("testRetryableException"), AlwaysThrows);
            var e := RunFallback(Spring6Test, spec, (_: Failure) => Returned(()), 0);
            var ev := e.events;
            && e.invocations == 3 && e.store == 3
            && |ev| == 4
            && ev[0].kind == AttemptFailed && ev[0].attempt == 1
            && ev[1].kind == AttemptFailed && ev[1].attempt == 2
            && ev[2].kind == AttemptFailed && ev[2].attempt == 3
            && ev[3].kind == PolicyExhausted && ev[3].attempt == 3
            && forall e :: e in ev ==> e.name == "testRetryableException" && e.max == 3
  {
    Spring6Decisions();
    var act := AsCallback(AlwaysThrows);
    var r := Spring6Test.Retryable();
    forall s: nat
      ensures act(s) == (s + 1, Fail(Runtime))
    {
    }
    AlwaysRetryableExhausts(act, r, 3, 0);
    var t := Loop(Spring6Test, act, 0);
    assert forall j :: 0 <= j < |t.outcomes| ==> t.outcomes[j] == Fail(Runtime);
    assert !Matches([IllegalArgumentKind], RuntimeKind) by {
      assert !IsA(RuntimeKind, IllegalArgumentKind);
    }
    Events6Shape("testRetryableException", 3, [IllegalArgumentKind], t.outcomes);
  }

  /** Spring 6's listener decides "terminated" by the non-retryable list
      alone: an `IOException`, neither retryable nor non-retryable, ends the
      run after one invocation, yet the run is reported as exhausted 1/3. */
  lemma Spring6ListenerUnlistedKindReportedExhausted()
    ensures var io := Failure(IOKind, "disk");
            var spec := Call(Named("io"), Scripted<()>([Fail(io)]));
            var x := Execute(Spring6Test, spec, 0);
            && x.invocations == 1
            && |x.events| == 2
            && x.events[1].kind == PolicyExhausted && x.events[1].attempt == 1 && x.events[1].max == 3
  {
    Spring6Decisions();
    var io := Failure(IOKind, "disk");
    var script: seq<Outcome<()>> := [Fail(io)];
    var r := Spring6Test.Retryable();
    StopsAt(script, r, 3, 0, 0);
    ScriptedRun(script, r, 3, 0);
    var t := Loop(Spring6Test, Scripted(script), 0);
    assert !Matches([IllegalArgumentKind], IOKind) by {
      assert !IsA(IOKind, IllegalArgumentKind);
    }
    Events6Shape("io", 3, [IllegalArgumentKind], t.outcomes);
  }

  /** An included kind below an excluded one: the Spring 7 rule lets the
      exclude win, but Spring 6's map decides by the nearest listed
      superclass, so `IllegalArgumentException` is retried there. The run
      spends all three attempts, and the listener, which checks only the
      non-retryable list, logs it as terminated 3/3. */
  lemma Spring6IncludedBelowExcludedRetried()
    ensures var s6 := Spring6(Spring6Policy(3, [IllegalArgumentKind], [RuntimeKind]));
            var s7 := Spring7(Policy7(2, [IllegalArgumentKind], [RuntimeKind]));
            var e := Execute(s6, Call(Named("inverted"), Scripted<()>([Fail(IllegalArgument)])), 0);
            && s6.Retryable()(IllegalArgumentKind)
            && !s7.Retryable()(IllegalArgumentKind)
            && e.invocations == 3
            && |e.events| == 4
            && e.events[3].kind == PolicyTerminated && e.events[3].attempt == 3
  {
    var s6 := Spring6(Spring6Policy(3, [IllegalArgumentKind], [RuntimeKind]));
    var m := ClassificationMap([IllegalArgumentKind], [RuntimeKind]);
    assert RuntimeKind != IllegalArgumentKind by {
      assert |RuntimeKind.lineage| != |IllegalArgumentKind.lineage|;
    }
    assert IllegalArgumentKind.lineage[..|IllegalArgumentKind.lineage|] == IllegalArgumentKind.lineage;
    assert NearestKey(m, IllegalArgumentKind, 5) == Some(IllegalArgumentKind);
    assert s6.Retryable()(IllegalArgumentKind);
    assert IllegalArgumentKind.lineage[..|RuntimeKind.lineage|] == RuntimeKind.lineage;
    assert IsA(IllegalArgumentKind, [RuntimeKind][0]);
    assert !ShouldRetry([IllegalArgumentKind], [RuntimeKind], IllegalArgumentKind);
    Spring6BudgetTerminated(s6);
  }

  lemma Spring6BudgetTerminated(s6: Engine)
    requires s6 == Spring6(Spring6Policy(3, [IllegalArgumentKind], [RuntimeKind]))
    requires s6.Retryable()(IllegalArgumentKind)
    ensures var e := Execute(s6, Call(Named("inverted"), Scripted<()>([Fail(IllegalArgument)])), 0);
            && e.invocations == 3
            && |e.events| == 4
            && e.events[3].kind == PolicyTerminated && e.events[3].attempt == 3
  {
    var act: nat -> (nat, Outcome<()>) := Scripted([Fail(IllegalArgument)]);
    forall s: nat
      ensures act(s).1 == Fail(IllegalArgument)
    {
      ScriptedCall<()>([Fail(IllegalArgument)], s);
    }
    AlwaysRetryableExhausts(act, s6.Retryable(), 3, 0);
    var t := Loop(s6, act, 0);
    assert IllegalArgumentKind.lineage[..|RuntimeKind.lineage|] == RuntimeKind.lineage;
    assert Matches([RuntimeKind], IllegalArgumentKind) by {
      assert IsA(IllegalArgumentKind, [RuntimeKind][0]);
    }
    CloseReportsRunEnd("inverted", 3, [RuntimeKind], t.outcomes);
    Events6Shape("inverted", 3, [RuntimeKind], t.outcomes);
  }

  /** Spring 6 builds the classification map so that a kind listed as both
      retryable and non-retryable has one entry, non-retryable. */
  lemma DuplicateKindIsNonRetryable()
    ensures ClassificationMap([IOKind], [IOKind]) == map[IOKind := false]
  {
  }

  // ---------------------------------------------------------------------------
  // The arbiter's tests. The store is the size of the one status list; the
  // status handle is that list.

  /** The Spring 7 arbiter policy retries `RuntimeException`: three
      invocations at most. */
  lemma Spring7ArbiterDecisions()
    ensures Spring7Arbiter.Retryable()(RuntimeKind)
    ensures Spring7Arbiter.MaxInvocations() == 3
  {
    assert RuntimeKind.lineage[..|RuntimeKind.lineage|] == RuntimeKind.lineage;
    assert IsA(RuntimeKind, [RuntimeKind][0]);
    assert !IsA(RuntimeKind, [IllegalArgumentKind][0]);
    assert ShouldRetry([RuntimeKind], [IllegalArgumentKind], RuntimeKind);
  }

  /** The skip test's store: done at size two; the update adds an element
      and then throws. */
  const SkipPort: Port<nat, ()> :=
    Port<nat, ()>.Port((n: nat) => Ok(()), (n: nat, _: ()) => Ok(n == 2),
         (n: nat, _: ()) => (n + 1, Fail(Failure(RuntimeKind, "Optimistic locking failed"))))

  /** The exactly-once test's store: done above size one; the update throws
      when the list is already larger and adds an element otherwise. */
  const OncePort: Port<nat, ()> :=
    Port<nat, ()>.Port((n: nat) => Ok(()), (n: nat, _: ()) => Ok(n > 1),
         (n: nat, _: ()) => if n > 1 then (n, Fail(Failure(RuntimeKind, "Precondition failed"))) else (n + 1, Ok(())))

  const Executed: nat -> Outcome<Option<string>> := (n: nat) => Ok(Some("Executed task"))

  /** A list of size one whose update adds an element and then throws: the
      first attempt fails retryably, the second finds the status done, so the
      task is skipped and the status has size two. */
  lemma ArbiterUpdateAddsThenThrowsSkips()
    ensures var c := RunValue(Spring7Arbiter, Named("testTaskNotCompletedThenSkip"), Executed, SkipPort, 1);
            && c.attempts == 2 && c.taskRuns == 0 && c.store == 2
            && c.result == Returned(TaskResult(None, ()))
  {
    Spring7ArbiterDecisions();
    var t := Loop(Spring7Arbiter, Attempt(SkipPort), 1);
    assert AlreadyDone(SkipPort, 1) == (2, Fail(Failure(RuntimeKind, "Optimistic locking failed")));
    assert AlreadyDone(SkipPort, 2) == (2, Ok(State(true, ())));
    assert t.befores[0] == 1;
  }

  /** Five calls against the exactly-once store, starting at size one, run
      the task exactly once: the first call marks the store and runs it, the
      other four find it done. */
  lemma ArbiterExecutesOnlyOnce()
    ensures var r := Repeat(RunOn(Spring7Arbiter, Named("testTaskNotCompletedThenExecute"), Executed, OncePort), 1, 5);
            && r.1 == 1 && r.0 == 2
            && r.2[0] == Returned(TaskResult(Some("Executed task"), ()))
            && forall j :: 1 <= j < 5 ==> r.2[j] == Returned(TaskResult(None, ()))
  {
    var spec := Named("testTaskNotCompletedThenExecute");
    var call := RunOn(Spring7Arbiter, spec, Executed, OncePort);
    Spring7ArbiterDecisions();
    assert AlreadyDone(OncePort, 1) == (2, Ok(State(false, ())));
    FirstStops(Attempt(OncePort), Spring7Arbiter.Retryable(), Spring7Arbiter.MaxInvocations(), 1);
    var first := RunValue(Spring7Arbiter, spec, Executed, OncePort, 1);
    assert first.taskRuns == 1 && first.store == 2;
    assert first.result == Returned(TaskResult(Some("Executed task"), ()));
    DoneSkips(Spring7Arbiter, spec, Executed, OncePort, 2);
    RepeatOnDone(call, 2, 4);
  }

  // ---------------------------------------------------------------------------
  // Spring 7.

  /** The Spring 7 listener for a run whose action always throws
      `RuntimeException` under two retries: failed 1/3, 2/3, 3/3, then
      exhausted 3/3. */
  lemma Spring7ListenerExhausted()
    ensures var spec := Call(Named("testRetryableException"), Scripted<()>([Fail(Runtime)]));
            var ev := Execute(Spring7Arbiter, spec, 0).events;
            && |ev| == 4
            && ev[0].kind == AttemptFailed && ev[0].attempt == 1
            && ev[1].kind == AttemptFailed && ev[1].attempt == 2
            && ev[2].kind == AttemptFailed && ev[2].attempt == 3
            && ev[3].kind == PolicyExhausted && ev[3].attempt == 3
            && forall e :: e in ev ==> e.name == "testRetryableException" && e.max == 3
  {
    Spring7ArbiterDecisions();
    var act: nat -> (nat, Outcome<()>) := Scripted([Fail(Runtime)]);
    var r := Spring7Arbiter.Retryable();
    forall s: nat
      ensures act(s).1 == Fail(Runtime)
    {
      ScriptedCall<()>([Fail(Runtime)], s);
    }
    AlwaysRetryableExhausts(act, r, 3, 0);
    Events7Meaning(act, r, 2, 0, "testRetryableException");
  }

  /** The class loader of the conversion tests. */
  const TestRegistry: Registry := map[
    "java.io.IOException" := IOKind.lineage,
    "java.net.SocketTimeoutException" := IOKind.lineage + ["java.io.InterruptedIOException", "java.net.SocketTimeoutException"],
    "java.lang.String" := ["java.lang.Object", "java.lang.String"]]

  /** Two exception names convert, in order, and a null list converts to
      the empty list. */
  method ConvertValidNames() returns (valid: Conversion<seq<Kind>>, none: Conversion<seq<Kind>>)
    ensures valid == Converted([IOKind, Kind(TestRegistry["java.net.SocketTimeoutException"])])
    ensures none == Converted([])
  {
    var names := ["java.io.IOException", "java.net.SocketTimeoutException"];
    assert ConvertToThrowableClass(TestRegistry, names[0]) == Converted(IOKind);
    assert ConvertToThrowableClass(TestRegistry, names[1]) == Converted(Kind(TestRegistry[names[1]]));
    valid := ThrowableList(TestRegistry, Some(names));
    assert valid.value == [IOKind, Kind(TestRegistry[names[1]])];
    none := ThrowableList(TestRegistry, None);
  }

  /** `java.lang.String` is known but not a Throwable. */
  method ConvertNonThrowable() returns (r: Conversion<seq<Kind>>)
    ensures r.Rejected? && r.error.Message() == "Class " + "java.lang.String" + " is not a subclass of java.lang.Throwable"
  {
    var names := ["java.lang.String"];
    assert ConvertToThrowableClass(TestRegistry, names[0]) == Rejected(NotThrowable("java.lang.String"));
    r := ThrowableList(TestRegistry, Some(names));
    assert r.error == NotThrowable("java.lang.String");
  }

  /** An unknown class name is rejected as not found. */
  method ConvertUnknown() returns (r: Conversion<seq<Kind>>)
    ensures r.Rejected? && r.error.Message() == "Class java.lang.NoSuchClass not found"
  {
    var names := ["java.lang.NoSuchClass"];
    assert ConvertToThrowableClass(TestRegistry, names[0]) == Rejected(ClassNotFound("java.lang.NoSuchClass"));
    r := ThrowableList(TestRegistry, Some(names));
    assert r.error == ClassNotFound("java.lang.NoSuchClass");
  }
}
