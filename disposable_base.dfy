/**
 * DisposableBase (Extreal.Core): the older base class whose subclasses
 * implement `FreeResources()`. Its own `isDisposed` flag makes
 * `DisposeInternal()` free the resources only until one call completes,
 * whether the calls come from `Dispose()` or from the finalizer. The
 * abstract `FreeResources()` is modelled by a count of its invocations and
 * by the exception, if any, that the subclass's implementation throws.
 */
module CoreDisposable {
  import opened Common

  /** What one `DisposeInternal()` call does: how many times it runs
      `FreeResources()`, what it throws, and the `isDisposed` it leaves. */
  datatype FreeStep = FreeStep(frees: nat, thrown: Option<Exception>, disposed: bool)

  /** An exception from `FreeResources()` leaves before `isDisposed = true`,
      so the object stays undisposed. */
  function StepOf(isDisposed: bool, freeThrows: Option<Exception>): FreeStep
  {
    if isDisposed then FreeStep(0, None, true)
    else FreeStep(1, freeThrows, freeThrows.None?)
  }

  /** The number of `FreeResources()` calls a sequence of `Dispose()` and
      finalizer calls makes, starting from `isDisposed`, each call starting
      from the flag the previous one left. */
  function Frees(isDisposed: bool, calls: seq<DisposeCall>, freeThrows: Option<Exception>): nat
    decreases |calls|
  {
    if calls == [] then 0
    else
      var step := StepOf(isDisposed, freeThrows);
      step.frees + Frees(step.disposed, calls[1..], freeThrows)
  }

  lemma {:induction false} DisposedFreesNothing(calls: seq<DisposeCall>, freeThrows: Option<Exception>)
    ensures Frees(true, calls, freeThrows) == 0
    decreases |calls|
  {
    if calls != [] {
      DisposedFreesNothing(calls[1..], freeThrows);
    }
  }

  /** With a `FreeResources()` that does not throw, as the class asks of its
      subclasses, however `Dispose()` and the finalizer are interleaved the
      resources are freed exactly once if either ran at all, and never
      otherwise. */
  lemma FreedAtMostOnce(calls: seq<DisposeCall>)
    ensures Frees(false, calls, None) == if calls == [] then 0 else 1
  {
    if calls != [] {
      DisposedFreesNothing(calls[1..], None);
    }
  }

  /** A `FreeResources()` that throws is run again by every later call. */
  lemma {:induction false} ThrowingFreeRepeats(calls: seq<DisposeCall>, e: Exception)
    ensures Frees(false, calls, Some(e)) == |calls|
    decreases |calls|
  {
    if calls != [] {
      ThrowingFreeRepeats(calls[1..], e);
    }
  }

  class DisposableBase {
    var isDisposed: bool
    /** How many times `FreeResources()` has run. */
    var freeResourcesCalls: nat
    /** `GC.SuppressFinalize(this)` has been called. */
    var finalizeSuppressed: bool
    /** The exception the subclass's `FreeResources()` throws, if any. */
    const freeThrows: Option<Exception>

    constructor (freeThrows: Option<Exception>)
      ensures !isDisposed && freeResourcesCalls == 0 && !finalizeSuppressed
      ensures this.freeThrows == freeThrows
    {
      isDisposed := false;
      freeResourcesCalls := 0;
      finalizeSuppressed := false;
      this.freeThrows := freeThrows;
    }

    /** The finalizer `~DisposableBase()`. */
    method Finalize() returns (thrown: Option<Exception>)
      modifies this
      ensures var step := StepOf(old(isDisposed), freeThrows);
        && freeResourcesCalls == old(freeResourcesCalls) + step.frees
        && thrown == step.thrown
        && isDisposed == step.disposed
      ensures finalizeSuppressed == old(finalizeSuppressed)
    {
      thrown := DisposeInternal();
    }

    /** `DisposeInternal()`, then `GC.SuppressFinalize(this)`, which an
        exception from `DisposeInternal()` skips. */
    method Dispose() returns (thrown: Option<Exception>)
      modifies this
      ensures var step := StepOf(old(isDisposed), freeThrows);
        && freeResourcesCalls == old(freeResourcesCalls) + step.frees
        && thrown == step.thrown
        && isDisposed == step.disposed
      ensures finalizeSuppressed == (old(finalizeSuppressed) || thrown.None?)
    {
      thrown := DisposeInternal();
      if thrown.Some? {
        return;
      }
      finalizeSuppressed := true;
    }

    /** Returns at once when already disposed; otherwise frees the resources
        and only then sets `isDisposed`. */
    method DisposeInternal() returns (thrown: Option<Exception>)
      modifies this
      ensures var step := StepOf(old(isDisposed), freeThrows);
        && freeResourcesCalls == old(freeResourcesCalls) + step.frees
        && thrown == step.thrown
        && isDisposed == step.disposed
      ensures finalizeSuppressed == old(finalizeSuppressed)
    {
      if isDisposed {
        return None;
      }
      thrown := FreeResources();
      if thrown.Some? {
        return;
      }
      isDisposed := true;
    }

    /** The subclass's `FreeResources()`; it runs while `isDisposed` is still
        false. */
    method FreeResources() returns (thrown: Option<Exception>)
      requires !isDisposed
      modifies this`freeResourcesCalls
      ensures freeResourcesCalls == old(freeResourcesCalls) + 1
      ensures thrown == freeThrows
    {
      freeResourcesCalls := freeResourcesCalls + 1;
      thrown := freeThrows;
    }
  }

  /** The finalizer of a never-disposed object frees its resources once. */
  method FinalizerScenario() returns (frees: nat)
    ensures frees == 1
  {
    var sut := new DisposableBase(None);
    var t := sut.Finalize();
    frees := sut.freeResourcesCalls;
  }

  /** A second `Dispose()`, and a finalizer run after `Dispose()`, free
      nothing further. */
  method DisposeTwiceScenario() returns (afterFirst: nat, afterSecond: nat, afterFinalizer: nat)
    ensures afterFirst == 1 && afterSecond == 1 && afterFinalizer == 1
  {
    var sut := new DisposableBase(None);
    var t1 := sut.Dispose();
    afterFirst := sut.freeResourcesCalls;
    var t2 := sut.Dispose();
    afterSecond := sut.freeResourcesCalls;
    var t3 := sut.Finalize();
    afterFinalizer := sut.freeResourcesCalls;
  }

  /** A throwing `FreeResources()`: each `Dispose()` rethrows and frees
      again, the object stays undisposed and its finalization is not
      suppressed. */
  method ThrowingFreeScenario(e: Exception)
    returns (first: Option<Exception>, second: Option<Exception>, frees: nat, disposed: bool, suppressed: bool)
    ensures first == second == Some(e)
    ensures frees == 2 && !disposed && !suppressed
  {
    var sut := new DisposableBase(Some(e));
    first := sut.Dispose();
    second := sut.Dispose();
    frees, disposed, suppressed := sut.freeResourcesCalls, sut.isDisposed, sut.finalizeSuppressed;
  }

  /** The object follows the call-sequence model: whether or not
      `FreeResources()` throws, `Dispose()`, the finalizer and `Dispose()`
      again free exactly as often as `Frees` predicts for that sequence. */
  method CallsFollowFrees(freeThrows: Option<Exception>) returns (frees: nat)
    ensures frees == Frees(false, [ExplicitDispose, FinalizerRun, ExplicitDispose], freeThrows)
  {
    var sut := new DisposableBase(freeThrows);
    var calls := [ExplicitDispose, FinalizerRun, ExplicitDispose];
    var t1 := sut.Dispose();
    var t2 := sut.Finalize();
    var t3 := sut.Dispose();
    frees := sut.freeResourcesCalls;
    assert calls[1..] == [FinalizerRun, ExplicitDispose];
    assert calls[1..][1..] == [ExplicitDispose];
    assert calls[1..][1..][1..] == [];
  }
}
