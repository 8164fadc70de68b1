/** Failure-compatible wrappers used for the Python program's exceptions and missing values. */
module Wrappers {

  datatype Option<+T> = None | Some(value: T) {
    predicate IsFailure() { None? }

    function PropagateFailure<U>(): Option<U>
      requires None?
    {
      None
    }

    function Extract(): T
      requires Some?
    {
      value
    }
  }

  datatype Result<+T, +E> = Success(value: T) | Failure(error: E) {
    predicate IsFailure() { Failure? }

    function PropagateFailure<U>(): Result<U, E>
      requires Failure?
    {
      Failure(error)
    }

    function Extract(): T
      requires Success?
    {
      value
    }
  }

  /** The result of an operation that returns nothing but may raise. */
  datatype Outcome<+E> = Pass | Fail(error: E)

  /** Runs a sequence of steps in order: all their values, or the error of the first step that failed. */
  function Sequence<T, E>(steps: seq<Result<T, E>>): Result<seq<T>, E>
    decreases |steps|
  {
    if steps == [] then Success([])
    else
      var init :- Sequence(steps[..|steps| - 1]);
      var last :- steps[|steps| - 1];
      Success(init + [last])
  }

  /** The run succeeds exactly when every step does, and then yields each step's value in order. */
  lemma {:induction false} SequenceSucceeds<T, E>(steps: seq<Result<T, E>>)
    ensures Sequence(steps).Success? <==> forall k :: 0 <= k < |steps| ==> steps[k].Success?
    ensures Sequence(steps).Success? ==>
      |Sequence(steps).value| == |steps|
      && forall k :: 0 <= k < |steps| ==> Sequence(steps).value[k] == steps[k].value
    decreases |steps|
  {
    if steps != [] {
      var n := |steps| - 1;
      SequenceSucceeds(steps[..n]);
      assert forall k :: 0 <= k < n ==> steps[..n][k] == steps[k];
    }
  }

  /** Once a step fails, the steps after it do not matter. */
  lemma {:induction false} SequenceFailureSticks<T, E>(steps: seq<Result<T, E>>, k: nat)
    requires k <= |steps| && Sequence(steps[..k]).Failure?
    ensures Sequence(steps) == Sequence(steps[..k])
    decreases |steps|
  {
    if k < |steps| {
      var n := |steps| - 1;
      assert steps[..n][..k] == steps[..k];
      SequenceFailureSticks(steps[..n], k);
    } else {
      assert steps[..k] == steps;
    }
  }

  /** The run fails with the error of the first step that fails. */
  lemma SequenceFirstFailure<T, E>(steps: seq<Result<T, E>>, k: nat)
    requires k < |steps| && steps[k].Failure?
    requires forall j :: 0 <= j < k ==> steps[j].Success?
    ensures Sequence(steps) == Failure(steps[k].error)
  {
    var init := steps[..k];
    SequenceSucceeds(init);
    assert Sequence(init).Success?;
    assert steps[..k + 1][..k] == init;
    SequenceFailureSticks(steps, k + 1);
  }
}
