/**
 * SafeDisposer: the Dispose pattern by delegation. It holds a target and up
 * to two release actions. `Dispose()` runs the managed then the unmanaged
 * release, `DisposeByFinalizer()` only the unmanaged one, and once a call has
 * run its actions to the end every later call of either releases nothing.
 *
 * A release action is modelled by whether it is present and whether it
 * throws (and what); the releases performed are logged in order. An action
 * that throws ends the call at once: the remaining actions are skipped and
 * `isDisposed` stays false, so the next call releases again.
 * `GC.SuppressFinalize(target)` is recorded as a flag; the finalizer is an
 * explicit call.
 */
module SafeDisposal {
  import opened Common

  const EitherActionRequiredMessage := "Either releaseManagedResources or releaseUnmanagedResources is required"

  /** Which release action ran. */
  datatype Resource = Managed | Unmanaged

  /** The actions the private `Dispose(disposing)` means to invoke when the
      object is not yet disposed: managed then unmanaged when disposing,
      unmanaged only from the finalizer, skipping an absent action. */
  function Planned(disposing: bool, hasManaged: bool, hasUnmanaged: bool): seq<Resource>
  {
    (if disposing && hasManaged then [Managed] else []) + (if hasUnmanaged then [Unmanaged] else [])
  }

  /** Invoking `actions` in order until one throws: the actions invoked (the
      throwing one included) and the exception that ended the run, if any. */
  function InvokeInOrder(actions: seq<Resource>, throwing: map<Resource, Exception>): (seq<Resource>, Option<Exception>)
    decreases |actions|
  {
    if actions == [] then ([], None)
    else if actions[0] in throwing then ([actions[0]], Some(throwing[actions[0]]))
    else
      var rest := InvokeInOrder(actions[1..], throwing);
      ([actions[0]] + rest.0, rest.1)
  }

  /** What one public call does: the releases it makes, the exception it
      throws, and whether the object is disposed afterwards. */
  datatype Step = Step(released: seq<Resource>, thrown: Option<Exception>, disposed: bool)

  function StepOf(isDisposed: bool, call: DisposeCall, hasManaged: bool, hasUnmanaged: bool,
                  throwing: map<Resource, Exception>): Step
  {
    if isDisposed then Step([], None, true)
    else
      var (invoked, thrown) := InvokeInOrder(Planned(call.ExplicitDispose?, hasManaged, hasUnmanaged), throwing);
      Step(invoked, thrown, thrown.None?)
  }

  /** The releases a sequence of calls makes, starting from `isDisposed`;
      each call starts from the state the previous one left. */
  function Replay(isDisposed: bool, calls: seq<DisposeCall>, hasManaged: bool, hasUnmanaged: bool,
                  throwing: map<Resource, Exception>): seq<Resource>
    decreases |calls|
  {
    if calls == [] then []
    else
      var step := StepOf(isDisposed, calls[0], hasManaged, hasUnmanaged, throwing);
      step.released + Replay(step.disposed, calls[1..], hasManaged, hasUnmanaged, throwing)
  }

  /** The constructor's checks, in order: no action at all throws
      ArgumentException before a null target throws ArgumentNullException. */
  function CheckArguments(hasTarget: bool, hasManaged: bool, hasUnmanaged: bool): Option<Exception>
  {
    if !hasManaged && !hasUnmanaged then Some(ArgumentException(EitherActionRequiredMessage))
    else if !hasTarget then Some(ArgumentNullException("target"))
    else None
  }

  /** Construction succeeds exactly with a target and at least one action.
      With neither action it throws ArgumentException even when the target
      is null too; with an action and no target, ArgumentNullException. */
  lemma ConstructionChecks(hasTarget: bool, hasManaged: bool, hasUnmanaged: bool)
    ensures CheckArguments(hasTarget, hasManaged, hasUnmanaged) == None <==> hasTarget && (hasManaged || hasUnmanaged)
    ensures !hasManaged && !hasUnmanaged ==>
      CheckArguments(hasTarget, hasManaged, hasUnmanaged) == Some(ArgumentException(EitherActionRequiredMessage))
    ensures (hasManaged || hasUnmanaged) && !hasTarget ==>
      CheckArguments(hasTarget, hasManaged, hasUnmanaged) == Some(ArgumentNullException("target"))
  {
  }

  /** One step of `InvokeInOrder`. */
  lemma InvokeCons(a: Resource, rest: seq<Resource>, throwing: map<Resource, Exception>)
    ensures InvokeInOrder([a] + rest, throwing)
      == if a in throwing then ([a], Some(throwing[a]))
         else ([a] + InvokeInOrder(rest, throwing).0, InvokeInOrder(rest, throwing).1)
  {
    assert ([a] + rest)[1..] == rest;
  }

  /** The actions invoked are a prefix of the plan. The run throws exactly
      when some planned action throws; it then stops at the first such
      action, with that action's exception, and skips the rest. Otherwise
      every planned action ran. */
  lemma {:induction false} InvokeStopsAtThrow(actions: seq<Resource>, throwing: map<Resource, Exception>)
    ensures var (invoked, thrown) := InvokeInOrder(actions, throwing);
      && |invoked| <= |actions| && invoked == actions[..|invoked|]
      && (thrown.None? <==> forall i :: 0 <= i < |actions| ==> actions[i] !in throwing)
      && (thrown.None? ==> invoked == actions)
      && (thrown.Some? ==>
            && |invoked| > 0
            && invoked[|invoked| - 1] in throwing
            && thrown == Some(throwing[invoked[|invoked| - 1]])
            && forall i :: 0 <= i < |invoked| - 1 ==> invoked[i] !in throwing)
    decreases |actions|
  {
    if actions != [] && actions[0] !in throwing {
      InvokeStopsAtThrow(actions[1..], throwing);
      var rest := InvokeInOrder(actions[1..], throwing);
      assert InvokeInOrder(actions, throwing).0 == [actions[0]] + rest.0;
      assert forall i :: 1 <= i < |actions| ==> actions[i] == actions[1..][i - 1];
    }
  }

  /** One step of `Replay`. */
  lemma ReplayCons(isDisposed: bool, call: DisposeCall, calls: seq<DisposeCall>, hasManaged: bool, hasUnmanaged: bool,
                   throwing: map<Resource, Exception>)
    ensures var step := StepOf(isDisposed, call, hasManaged, hasUnmanaged, throwing);
      Replay(isDisposed, [call] + calls, hasManaged, hasUnmanaged, throwing)
        == step.released + Replay(step.disposed, calls, hasManaged, hasUnmanaged, throwing)
  {
    assert ([call] + calls)[1..] == calls;
  }

  /** Two calls, one step after another. */
  lemma ReplayTwo(isDisposed: bool, c1: DisposeCall, c2: DisposeCall, hasManaged: bool, hasUnmanaged: bool,
                  throwing: map<Resource, Exception>)
    ensures var first := StepOf(isDisposed, c1, hasManaged, hasUnmanaged, throwing);
      var second := StepOf(first.disposed, c2, hasManaged, hasUnmanaged, throwing);
      Replay(isDisposed, [c1, c2], hasManaged, hasUnmanaged, throwing) == first.released + second.released
  {
    var first := StepOf(isDisposed, c1, hasManaged, hasUnmanaged, throwing);
    assert [c2] == [c2] + [];
    ReplayCons(first.disposed, c2, [], hasManaged, hasUnmanaged, throwing);
    assert [c1, c2] == [c1] + [c2];
    ReplayCons(isDisposed, c1, [c2], hasManaged, hasUnmanaged, throwing);
  }

  /** Once disposed, no call sequence releases anything. */
  lemma {:induction false} DisposedReleasesNothing(calls: seq<DisposeCall>, hasManaged: bool, hasUnmanaged: bool,
                                                   throwing: map<Resource, Exception>)
    ensures Replay(true, calls, hasManaged, hasUnmanaged, throwing) == []
    decreases |calls|
  {
    if calls != [] {
      DisposedReleasesNothing(calls[1..], hasManaged, hasUnmanaged, throwing);
    }
  }

  /** When the first call's actions all complete, only that call releases:
      `Dispose()` first releases managed then unmanaged, the finalizer first
      releases unmanaged only, and no action runs more than once, whatever
      calls follow. */
  lemma OnlyFirstCallReleases(calls: seq<DisposeCall>, hasManaged: bool, hasUnmanaged: bool,
                              throwing: map<Resource, Exception>)
    requires calls != []
    requires StepOf(false, calls[0], hasManaged, hasUnmanaged, throwing).thrown.None?
    ensures Replay(false, calls, hasManaged, hasUnmanaged, throwing) == Planned(calls[0].ExplicitDispose?, hasManaged, hasUnmanaged)
    ensures multiset(Replay(false, calls, hasManaged, hasUnmanaged, throwing))[Managed] == (if calls[0].ExplicitDispose? && hasManaged then 1 else 0)
    ensures multiset(Replay(false, calls, hasManaged, hasUnmanaged, throwing))[Unmanaged] == (if hasUnmanaged then 1 else 0)
  {
    var plan := Planned(calls[0].ExplicitDispose?, hasManaged, hasUnmanaged);
    InvokeStopsAtThrow(plan, throwing);
    DisposedReleasesNothing(calls[1..], hasManaged, hasUnmanaged, throwing);
    assert Replay(false, calls, hasManaged, hasUnmanaged, throwing) == plan + [];
  }

  /** No action throws: every first call completes. */
  lemma NoThrowCompletes(call: DisposeCall, hasManaged: bool, hasUnmanaged: bool)
    ensures StepOf(false, call, hasManaged, hasUnmanaged, map[]) == Step(Planned(call.ExplicitDispose?, hasManaged, hasUnmanaged), None, true)
  {
    InvokeStopsAtThrow(Planned(call.ExplicitDispose?, hasManaged, hasUnmanaged), map[]);
  }

  /** A call whose action throws leaves the object undisposed: the calls
      after it behave as on a fresh object. */
  lemma ThrowingCallLeavesUndisposed(call: DisposeCall, calls: seq<DisposeCall>, hasManaged: bool, hasUnmanaged: bool,
                                     throwing: map<Resource, Exception>)
    requires StepOf(false, call, hasManaged, hasUnmanaged, throwing).thrown.Some?
    ensures !StepOf(false, call, hasManaged, hasUnmanaged, throwing).disposed
    ensures Replay(false, [call] + calls, hasManaged, hasUnmanaged, throwing)
      == StepOf(false, call, hasManaged, hasUnmanaged, throwing).released + Replay(false, calls, hasManaged, hasUnmanaged, throwing)
  {
    assert ([call] + calls)[1..] == calls;
  }

  /** With a throwing managed action, every `Dispose()` invokes it again and
      never reaches the unmanaged one; a finalizer run afterwards still
      releases the unmanaged resources. */
  lemma ThrowingManagedScenario(e: Exception)
    ensures Replay(false, [ExplicitDispose, ExplicitDispose, FinalizerRun], true, true, map[Managed := e])
      == [Managed, Managed, Unmanaged]
  {
    var t := map[Managed := e];
    var calls := [ExplicitDispose, ExplicitDispose, FinalizerRun];
    InvokeCons(Managed, [Unmanaged], t);
    InvokeCons(Unmanaged, [], t);
    assert [Managed] + [Unmanaged] == [Managed, Unmanaged];
    assert [] + [Unmanaged] == [Unmanaged];
    assert calls[1..] == [ExplicitDispose, FinalizerRun];
    assert calls[1..][1..] == [FinalizerRun];
    assert calls[1..][1..][1..] == [];
  }

  /** `Dispose()` followed by the finalizer releases managed and unmanaged
      once each. */
  lemma DisposeThenFinalizer()
    ensures Replay(false, [ExplicitDispose, FinalizerRun], true, true, map[]) == [Managed, Unmanaged]
  {
    NoThrowCompletes(ExplicitDispose, true, true);
    OnlyFirstCallReleases([ExplicitDispose, FinalizerRun], true, true, map[]);
  }

  class SafeDisposer {
    const target: object
    /** `releaseManagedResources != null` */
    const hasManaged: bool
    /** `releaseUnmanagedResources != null` */
    const hasUnmanaged: bool
    /** The actions that throw when invoked, with the exception each throws. */
    const throwing: map<Resource, Exception>
    var isDisposed: bool
    /** The release actions invoked so far, in order. */
    var released: seq<Resource>
    /** `GC.SuppressFinalize(target)` has been called. */
    var finalizeSuppressed: bool

    /** The constructor body after its checks have passed. */
    constructor (target: object, hasManaged: bool, hasUnmanaged: bool, throwing: map<Resource, Exception>)
      requires hasManaged || hasUnmanaged
      ensures this.target == target && this.hasManaged == hasManaged && this.hasUnmanaged == hasUnmanaged
      ensures this.throwing == throwing
      ensures !isDisposed && released == [] && !finalizeSuppressed
    {
      this.target := target;
      this.hasManaged := hasManaged;
      this.hasUnmanaged := hasUnmanaged;
      this.throwing := throwing;
      isDisposed := false;
      released := [];
      finalizeSuppressed := false;
    }

    /** `new SafeDisposer(target, releaseManagedResources, releaseUnmanagedResources)`. */
    static method Create(target: object?, hasManaged: bool, hasUnmanaged: bool, throwing: map<Resource, Exception>)
      returns (r: Result<SafeDisposer>)
      ensures match CheckArguments(target != null, hasManaged, hasUnmanaged)
        case Some(e) => r == Failure(e)
        case None =>
          && r.Success? && fresh(r.value)
          && r.value.target == target && r.value.hasManaged == hasManaged && r.value.hasUnmanaged == hasUnmanaged
          && r.value.throwing == throwing
          && !r.value.isDisposed && r.value.released == [] && !r.value.finalizeSuppressed
    {
      match CheckArguments(target != null, hasManaged, hasUnmanaged)
      case Some(e) =>
        r := Failure(e);
      case None =>
        var d := new SafeDisposer(target, hasManaged, hasUnmanaged, throwing);
        r := Success(d);
    }

    /** The finalizer's path: `Dispose(false)`. */
    method DisposeByFinalizer() returns (thrown: Option<Exception>)
      modifies this
      ensures var step := StepOf(old(isDisposed), FinalizerRun, hasManaged, hasUnmanaged, throwing);
        && released == old(released) + step.released
        && thrown == step.thrown
        && isDisposed == step.disposed
      ensures finalizeSuppressed == old(finalizeSuppressed)
    {
      thrown := DisposeCore(false);
    }

    /** `Dispose(true)`, then `GC.SuppressFinalize(target)`, which an
        exception from a release action skips. */
    method Dispose() returns (thrown: Option<Exception>)
      modifies this
      ensures var step := StepOf(old(isDisposed), ExplicitDispose, hasManaged, hasUnmanaged, throwing);
        && released == old(released) + step.released
        && thrown == step.thrown
        && isDisposed == step.disposed
      ensures finalizeSuppressed == (old(finalizeSuppressed) || thrown.None?)
    {
      thrown := DisposeCore(true);
      if thrown.Some? {
        return;
      }
      finalizeSuppressed := true;
    }

    /** The private `Dispose(bool disposing)`: returns at once when already
        disposed; otherwise invokes the release actions in order, stopping at
        one that throws, and only when all have completed sets `isDisposed`. */
    method DisposeCore(disposing: bool) returns (thrown: Option<Exception>)
      modifies this
      ensures old(isDisposed) ==> released == old(released) && thrown.None? && isDisposed
      ensures !old(isDisposed) ==>
        var (invoked, e) := InvokeInOrder(Planned(disposing, hasManaged, hasUnmanaged), throwing);
        released == old(released) + invoked && thrown == e && isDisposed == e.None?
      ensures finalizeSuppressed == old(finalizeSuppressed)
    {
      thrown := None;
      if isDisposed {
        return;
      }
      InvokeCons(Managed, [Unmanaged], throwing);
      InvokeCons(Managed, [], throwing);
      InvokeCons(Unmanaged, [], throwing);
      assert [Managed] + [Unmanaged] == [Managed, Unmanaged];
      assert [] + [Unmanaged] == [Unmanaged] && [Managed] + [] == [Managed];
      if disposing {
        if hasManaged {
          thrown := Release(Managed);
          if thrown.Some? {
            return;
          }
        }
        if hasUnmanaged {
          thrown := Release(Unmanaged);
          if thrown.Some? {
            return;
          }
        }
      } else {
        if hasUnmanaged {
          thrown := Release(Unmanaged);
          if thrown.Some? {
            return;
          }
        }
      }
      isDisposed := true;
    }

    /** Invokes one release action; it runs while `isDisposed` is still false,
        and it may throw. */
    method Release(resource: Resource) returns (thrown: Option<Exception>)
      requires !isDisposed
      modifies this`released
      ensures released == old(released) + [resource]
      ensures thrown == if resource in throwing then Some(throwing[resource]) else None
    {
      released := released + [resource];
      thrown := if resource in throwing then Some(throwing[resource]) else None;
    }
  }

  /** The object follows the call-sequence model: whichever actions throw,
      `Dispose()` and then the finalizer on one disposer log exactly what
      `Replay` predicts for that sequence. */
  method CallsFollowReplay(target: object, hasManaged: bool, hasUnmanaged: bool, throwing: map<Resource, Exception>)
    returns (log: seq<Resource>)
    requires hasManaged || hasUnmanaged
    ensures log == Replay(false, [ExplicitDispose, FinalizerRun], hasManaged, hasUnmanaged, throwing)
  {
    var d := new SafeDisposer(target, hasManaged, hasUnmanaged, throwing);
    var t1 := d.Dispose();
    var t2 := d.DisposeByFinalizer();
    log := d.released;
    ReplayTwo(false, ExplicitDispose, FinalizerRun, hasManaged, hasUnmanaged, throwing);
  }
}
