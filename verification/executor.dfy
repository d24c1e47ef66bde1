/** The retry loop the adapters delegate to, as an explicit reference model.

    The loop itself belongs to Spring and is not part of the repository; its
    observable behaviour is what the adapters and their tests rely on:
    invoke the action; stop on a value, on a failure the classifier rejects,
    or when the last allowed invocation failed; otherwise invoke again.
    Backoff delays do not change what is invoked or returned and are left out.

    An action is a state-passing function: from the state before an
    invocation it gives the state after it and the invocation's outcome. A
    Mockito-style scripted action and the task arbiter's check-then-mark step
    are both actions.
 */
module Executor {
  import opened Kinds

  /** One run of the loop: the state before each invocation, each
      invocation's outcome, and the state after the last one. */
  datatype Trace<St, V> = Trace(befores: seq<St>, outcomes: seq<Outcome<V>>, final: St) {
    ghost predicate Valid() {
      |befores| == |outcomes| > 0
    }
    function Last(): Outcome<V>
      requires |outcomes| > 0
    {
      outcomes[|outcomes| - 1]
    }
    function LastBefore(): St
      requires |befores| > 0
    {
      befores[|befores| - 1]
    }
  }

  /** The loop's stopping rule after its `n`-th invocation produced `o`. */
  predicate Stops<V>(o: Outcome<V>, retryable: Kind -> bool, n: nat, maxInvocations: nat) {
    o.Ok? || !retryable(o.failure.kind) || n == maxInvocations
  }

  /** The loop after `n` invocations have failed retryably, starting from
      state `st`. */
  function Drive<St, V>(act: St -> (St, Outcome<V>), retryable: Kind -> bool, maxInvocations: nat, n: nat, st: St): (t: Trace<St, V>)
    requires n < maxInvocations
    ensures |t.befores| == |t.outcomes| > 0 && t.befores[0] == st
    ensures n + |t.outcomes| <= maxInvocations
    ensures forall j :: 0 <= j < |t.outcomes| - 1 ==>
              act(t.befores[j]) == (t.befores[j + 1], t.outcomes[j]) &&
              !Stops(t.outcomes[j], retryable, n + j + 1, maxInvocations)
    ensures act(t.LastBefore()) == (t.final, t.Last())
    ensures Stops(t.Last(), retryable, n + |t.outcomes|, maxInvocations)
    decreases maxInvocations - n
  {
    var (next, o) := act(st);
    if Stops(o, retryable, n + 1, maxInvocations) then Trace([st], [o], next)
    else
      var rest := Drive(act, retryable, maxInvocations, n + 1, next);
      Trace([st] + rest.befores, [o] + rest.outcomes, rest.final)
  }

  /** A complete run from state `st` with at most `maxInvocations` invocations. */
  function Run<St, V>(act: St -> (St, Outcome<V>), retryable: Kind -> bool, maxInvocations: nat, st: St): (t: Trace<St, V>)
    requires maxInvocations > 0
    ensures IsRun(act, retryable, maxInvocations, st, t)
  {
    Drive(act, retryable, maxInvocations, 0, st)
  }

  /** The declarative description of a run: invocations are chained through
      the state, every invocation but the last failed retryably without
      using up the budget, and the last one stops the loop. */
  ghost predicate IsRun<St, V>(act: St -> (St, Outcome<V>), retryable: Kind -> bool, maxInvocations: nat, st: St, t: Trace<St, V>) {
    && |t.befores| == |t.outcomes| > 0
    && |t.outcomes| <= maxInvocations
    && t.befores[0] == st
    && (forall j :: 0 <= j < |t.outcomes| - 1 ==>
          act(t.befores[j]) == (t.befores[j + 1], t.outcomes[j]) &&
          !Stops(t.outcomes[j], retryable, j + 1, maxInvocations))
    && act(t.LastBefore()) == (t.final, t.Last())
    && Stops(t.Last(), retryable, |t.outcomes|, maxInvocations)
  }

  /** The description is complete: there is exactly one run, so every
      property stated of `IsRun` is a property of `Run`. */
  lemma {:induction false} RunUnique<St, V>(act: St -> (St, Outcome<V>), retryable: Kind -> bool, maxInvocations: nat, st: St, t: Trace<St, V>)
    requires maxInvocations > 0
    requires IsRun(act, retryable, maxInvocations, st, t)
    ensures t == Run(act, retryable, maxInvocations, st)
  {
    var u := Run(act, retryable, maxInvocations, st);
    var j := 0;
    while j < |t.outcomes| && j < |u.outcomes|
      invariant j <= |t.outcomes| && j <= |u.outcomes|
      invariant forall i :: 0 <= i < j ==> t.outcomes[i] == u.outcomes[i]
      invariant j < |t.befores| && j < |u.befores| ==> t.befores[j] == u.befores[j]
      invariant forall i :: 0 <= i < j ==> t.befores[i] == u.befores[i]
      decreases |t.outcomes| - j
    {
      var b := t.befores[j];
      if j < |t.outcomes| - 1 {
        assert act(b) == (t.befores[j + 1], t.outcomes[j]);
      } else {
        assert act(b) == (t.final, t.outcomes[j]);
      }
      if j < |u.outcomes| - 1 {
        assert act(b) == (u.befores[j + 1], u.outcomes[j]);
      } else {
        assert act(b) == (u.final, u.outcomes[j]);
      }
      j := j + 1;
    }
    // Both runs stop at the first invocation whose outcome stops the loop.
    assert t.outcomes[j - 1] == u.outcomes[j - 1];
    assert |t.outcomes| == |u.outcomes|;
    assert t.befores == u.befores;
    assert t.outcomes == u.outcomes;
    assert act(t.LastBefore()) == (t.final, t.Last());
  }

  /** A property of the state that every invocation preserves holds of every
      state a run passes through, and of its final state. */
  lemma RunPreserves<St, V>(act: St -> (St, Outcome<V>), retryable: Kind -> bool, maxInvocations: nat, st: St, inv: St -> bool)
    requires maxInvocations > 0 && inv(st)
    requires forall s :: inv(s) ==> inv(act(s).0)
    ensures var t := Run(act, retryable, maxInvocations, st);
            inv(t.final) && forall j :: 0 <= j < |t.befores| ==> inv(t.befores[j])
  {
    var t := Run(act, retryable, maxInvocations, st);
    var j := 0;
    while j < |t.befores|
      invariant j <= |t.befores|
      invariant forall i :: 0 <= i < j ==> inv(t.befores[i])
      invariant j < |t.befores| ==> inv(t.befores[j])
      invariant j == |t.befores| ==> inv(t.final)
    {
      if j < |t.befores| - 1 {
        assert act(t.befores[j]).0 == t.befores[j + 1];
      } else {
        assert act(t.LastBefore()).0 == t.final;
      }
      j := j + 1;
    }
  }

  /** The outcome of the `i`-th call (0-based) of a stubbed action: the
      stubs in order, the last one repeating once the others are used up. */
  function ScriptAt<V>(script: seq<Outcome<V>>, i: nat): Outcome<V>
    requires |script| > 0
  {
    if i < |script| then script[i] else script[|script| - 1]
  }

  /** A stubbed action whose state is the number of calls made so far. */
  function Scripted<V>(script: seq<Outcome<V>>): nat -> (nat, Outcome<V>)
    requires |script| > 0
  {
    (calls: nat) => (calls + 1, ScriptAt(script, calls))
  }

  /** Calling a stubbed action returns the next stub and counts the call. */
  lemma ScriptedCall<V>(script: seq<Outcome<V>>, calls: nat)
    requires |script| > 0
    ensures Scripted(script)(calls) == (calls + 1, ScriptAt(script, calls))
  {
  }

  /** The stub for call `calls + j` does not stop the loop at invocation
      `j + 1`. */
  predicate Continues<V>(script: seq<Outcome<V>>, retryable: Kind -> bool, maxInvocations: nat, calls: nat, j: nat)
    requires |script| > 0
  {
    !Stops(ScriptAt(script, calls + j), retryable, j + 1, maxInvocations)
  }

  /** A run of a stubbed action consumes consecutive stubs, one per
      invocation, and leaves the call counter advanced by the invocations. */
  lemma ScriptedRun<V>(script: seq<Outcome<V>>, retryable: Kind -> bool, maxInvocations: nat, calls: nat)
    requires |script| > 0 && maxInvocations > 0
    ensures var t := Run(Scripted(script), retryable, maxInvocations, calls);
            && t.final == calls + |t.outcomes|
            && (forall j :: 0 <= j < |t.outcomes| ==> t.befores[j] == calls + j)
            && (forall j :: 0 <= j < |t.outcomes| ==> t.outcomes[j] == ScriptAt(script, calls + j))
  {
    var act: nat -> (nat, Outcome<V>) := Scripted(script);
    var t := Run(act, retryable, maxInvocations, calls);
    var j := 0;
    while j < |t.outcomes|
      invariant j <= |t.outcomes|
      invariant forall i :: 0 <= i < j ==> t.befores[i] == calls + i && t.outcomes[i] == ScriptAt(script, calls + i)
      invariant j < |t.outcomes| ==> t.befores[j] == calls + j
      invariant j == |t.outcomes| ==> t.final == calls + j
    {
      ScriptedCall(script, t.befores[j]);
      if j < |t.outcomes| - 1 {
        assert act(t.befores[j]) == (t.befores[j + 1], t.outcomes[j]);
      } else {
        assert act(t.LastBefore()) == (t.final, t.Last());
      }
      j := j + 1;
    }
  }

  /** The number of invocations of a stubbed action, found by scanning the
      stubs for the first one that stops the loop. */
  method Invocations<V>(script: seq<Outcome<V>>, retryable: Kind -> bool, maxInvocations: nat, calls: nat) returns (k: nat)
    requires |script| > 0 && maxInvocations > 0
    ensures 1 <= k <= maxInvocations
    ensures k == |Run(Scripted(script), retryable, maxInvocations, calls).outcomes|
  {
    k := 1;
    while Continues(script, retryable, maxInvocations, calls, k - 1)
      invariant 1 <= k <= maxInvocations
      invariant forall j :: 0 <= j < k - 1 ==> Continues(script, retryable, maxInvocations, calls, j)
      decreases maxInvocations - k
    {
      k := k + 1;
    }
    StopsAt(script, retryable, maxInvocations, calls, k - 1);
  }

  /** The run of a stubbed action stops at invocation `stop + 1` exactly when
      the stubs before it fail retryably within the budget and stub `stop`
      stops the loop. */
  lemma StopsAt<V>(script: seq<Outcome<V>>, retryable: Kind -> bool, maxInvocations: nat, calls: nat, stop: nat)
    requires |script| > 0 && maxInvocations > 0
    requires forall j :: 0 <= j < stop ==> Continues(script, retryable, maxInvocations, calls, j)
    requires !Continues(script, retryable, maxInvocations, calls, stop)
    ensures var t := Run(Scripted(script), retryable, maxInvocations, calls);
            && |t.outcomes| == stop + 1
            && t.Last() == ScriptAt(script, calls + stop)
            && t.final == calls + stop + 1
  {
    ScriptedRun(script, retryable, maxInvocations, calls);
    var t := Run(Scripted(script), retryable, maxInvocations, calls);
    var n := |t.outcomes|;
    // The run stops at the first stub that stops the loop.
    assert t.outcomes[n - 1] == ScriptAt(script, calls + (n - 1));
    assert !Continues(script, retryable, maxInvocations, calls, n - 1);
    forall j | 0 <= j < n - 1
      ensures Continues(script, retryable, maxInvocations, calls, j)
    {
      assert t.outcomes[j] == ScriptAt(script, calls + j);
      assert !Stops(t.outcomes[j], retryable, j + 1, maxInvocations);
    }
  }

  /** An action that always fails retryably is invoked exactly
      `maxInvocations` times and its last failure ends the run. */
  lemma AlwaysRetryableExhausts<St, V>(act: St -> (St, Outcome<V>), retryable: Kind -> bool, maxInvocations: nat, st: St)
    requires maxInvocations > 0
    requires forall s :: act(s).1.Fail? && retryable(act(s).1.failure.kind)
    ensures var t := Run(act, retryable, maxInvocations, st);
            |t.outcomes| == maxInvocations && t.Last().Fail?
  {
    var t := Run(act, retryable, maxInvocations, st);
    assert act(t.LastBefore()).1 == t.Last();
  }

  /** An action whose first invocation succeeds or fails non-retryably is
      invoked once. */
  lemma FirstStops<St, V>(act: St -> (St, Outcome<V>), retryable: Kind -> bool, maxInvocations: nat, st: St)
    requires maxInvocations > 0
    requires act(st).1.Ok? || !retryable(act(st).1.failure.kind)
    ensures var t := Run(act, retryable, maxInvocations, st);
            |t.outcomes| == 1 && t.Last() == act(st).1 && t.final == act(st).0
  {
    var t := Run(act, retryable, maxInvocations, st);
    assert t.befores[0] == st;
  }
}
