/**
 * DisposableBase (Extreal.Core.Common.System): the Dispose pattern by
 * inheritance, built on a SafeDisposer whose two release actions are the
 * class's hooks `ReleaseManagedResources` and `ReleaseUnmanagedResources`.
 * The hooks are virtual methods that do nothing by default; a subclass's
 * overrides are modelled by which of them throw, and the model counts their
 * invocations through the disposer's release log.
 */
module SystemDisposable {
  import opened Common
  import opened SafeDisposal

  class DisposableBase {
    /** Readonly in the source; assigned once the object exists because it is
        the disposer's target. */
    var safeDisposer: SafeDisposer?

    ghost predicate Valid()
      reads this, safeDisposer
    {
      && safeDisposer != null
      && safeDisposer.target == this
      && safeDisposer.hasManaged && safeDisposer.hasUnmanaged
    }

    /** How many times `ReleaseManagedResources` has run. */
    function ManagedReleases(): nat
      reads this, safeDisposer
      requires Valid()
    {
      multiset(safeDisposer.released)[Managed]
    }

    /** How many times `ReleaseUnmanagedResources` has run. */
    function UnmanagedReleases(): nat
      reads this, safeDisposer
      requires Valid()
    {
      multiset(safeDisposer.released)[Unmanaged]
    }

    /** Both hooks are method groups, never null, so the disposer's checks
        always pass and construction always succeeds. `throwing` says which
        hooks the subclass overrides with code that throws. */
    constructor (throwing: map<Resource, Exception>)
      ensures Valid() && fresh(safeDisposer) && safeDisposer.throwing == throwing
      ensures !safeDisposer.isDisposed && safeDisposer.released == [] && !safeDisposer.finalizeSuppressed
    {
      safeDisposer := null;
      new;
      safeDisposer := new SafeDisposer(this, true, true, throwing);
    }

    /** The finalizer `~DisposableBase()`: `DisposeByFinalizer()`. */
    method Finalize() returns (thrown: Option<Exception>)
      requires Valid()
      modifies safeDisposer
      ensures Valid()
      ensures var step := StepOf(old(safeDisposer.isDisposed), FinalizerRun, true, true, safeDisposer.throwing);
        && safeDisposer.released == old(safeDisposer.released) + step.released
        && thrown == step.thrown
        && safeDisposer.isDisposed == step.disposed
      ensures safeDisposer.finalizeSuppressed == old(safeDisposer.finalizeSuppressed)
    {
      thrown := safeDisposer.DisposeByFinalizer();
    }

    method Dispose() returns (thrown: Option<Exception>)
      requires Valid()
      modifies safeDisposer
      ensures Valid()
      ensures var step := StepOf(old(safeDisposer.isDisposed), ExplicitDispose, true, true, safeDisposer.throwing);
        && safeDisposer.released == old(safeDisposer.released) + step.released
        && thrown == step.thrown
        && safeDisposer.isDisposed == step.disposed
      ensures safeDisposer.finalizeSuppressed == (old(safeDisposer.finalizeSuppressed) || thrown.None?)
    {
      thrown := safeDisposer.Dispose();
    }
  }

  /** `Dispose()` runs each hook once. */
  method DisposeScenario() returns (managed: nat, unmanaged: nat)
    ensures managed == 1 && unmanaged == 1
  {
    var sut := new DisposableBase(map[]);
    NoThrowCompletes(ExplicitDispose, true, true);
    var t1 := sut.Dispose();
    managed, unmanaged := sut.ManagedReleases(), sut.UnmanagedReleases();
  }

  /** A second `Dispose()` runs neither hook again. */
  method RepeatDisposeScenario() returns (managed: nat, unmanaged: nat)
    ensures managed == 1 && unmanaged == 1
  {
    var sut := new DisposableBase(map[]);
    NoThrowCompletes(ExplicitDispose, true, true);
    var t1 := sut.Dispose();
    var t2 := sut.Dispose();
    managed, unmanaged := sut.ManagedReleases(), sut.UnmanagedReleases();
  }

  /** The finalizer of a never-disposed object runs only the unmanaged hook. */
  method FinalizerScenario() returns (managed: nat, unmanaged: nat)
    ensures managed == 0 && unmanaged == 1
  {
    var sut := new DisposableBase(map[]);
    NoThrowCompletes(FinalizerRun, true, true);
    var t1 := sut.Finalize();
    managed, unmanaged := sut.ManagedReleases(), sut.UnmanagedReleases();
  }

  /** `Dispose()` and then the finalizer leave each hook run once. */
  method DisposeThenFinalizerScenario() returns (managed: nat, unmanaged: nat)
    ensures managed == 1 && unmanaged == 1
  {
    var sut := new DisposableBase(map[]);
    NoThrowCompletes(ExplicitDispose, true, true);
    var t1 := sut.Dispose();
    var t2 := sut.Finalize();
    managed, unmanaged := sut.ManagedReleases(), sut.UnmanagedReleases();
  }

  /** A subclass whose managed hook throws: each `Dispose()` rethrows it,
      runs the managed hook again and never the unmanaged one, and leaves the
      object undisposed with finalization not suppressed. */
  method ThrowingManagedHookScenario(e: Exception)
    returns (first: Option<Exception>, second: Option<Exception>, managed: nat, unmanaged: nat,
             disposed: bool, suppressed: bool)
    ensures first == second == Some(e)
    ensures managed == 2 && unmanaged == 0
    ensures !disposed && !suppressed
  {
    var sut := new DisposableBase(map[Managed := e]);
    InvokeCons(Managed, [Unmanaged], map[Managed := e]);
    assert Planned(true, true, true) == [Managed] + [Unmanaged];
    first := sut.Dispose();
    second := sut.Dispose();
    managed, unmanaged := sut.ManagedReleases(), sut.UnmanagedReleases();
    disposed, suppressed := sut.safeDisposer.isDisposed, sut.safeDisposer.finalizeSuppressed;
  }
}
