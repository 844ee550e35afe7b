/**
 * The IRetryStrategy interface: `Reset`, `HasNext` and `Next` over the three
 * implementations. A strategy reference is a tagged union; its abstract value
 * is a StrategyState, on which the interface's operations are functions.
 *
 * The interface file declares `void Wait()` where the implementations provide
 * `TimeSpan Next()`; this model follows the implementations.
 */
module RetryStrategy {
  import opened Common
  import CountingRetry
  import NoRetry
  import NullRetry

  /** The abstract value of a strategy: which implementation, and its state. */
  datatype StrategyState =
    | CountingState(counting: CountingRetry.CountingState)
    | NoRetryState(noRetry: NoRetry.NoRetryStrategy)
    | NullRetryState(nullRetry: NullRetry.NullRetryStrategy)
  {
    /** The strategy came out of its constructor's checks. */
    ghost predicate WellFormed()
    {
      CountingState? ==> counting.WellFormed()
    }

    predicate HasNext()
    {
      match this
      case CountingState(c) => c.HasNext()
      case NoRetryState(n) => n.HasNext()
      case NullRetryState(n) => n.HasNext()
    }

    function Reset(): StrategyState
    {
      match this
      case CountingState(c) => CountingState(c.Reset())
      case NoRetryState(n) => NoRetryState(n.Reset())
      case NullRetryState(n) => NullRetryState(n.Reset())
    }

    /** The wait `Next()` returns (or the exception it throws) and the state
        after it. */
    function Next(): (Result<Duration>, StrategyState)
    {
      match this
      case CountingState(c) => (c.Next().0, CountingState(c.Next().1))
      case NoRetryState(n) => (n.Next(), this)
      case NullRetryState(n) => (n.Next(), this)
    }

    /** How many more times `HasNext()` can answer true. */
    function Remaining(): nat
    {
      if CountingState? then counting.Remaining() else 0
    }
  }

  /** A reference of type IRetryStrategy. */
  datatype IRetryStrategy =
    | CountingRef(obj: CountingRetry.CountingRetryStrategy)
    | NoRetryRef(noRetry: NoRetry.NoRetryStrategy)
    | NullRetryRef(nullRetry: NullRetry.NullRetryStrategy)
  {
    /** The objects a call through this reference may change. */
    function Footprint(): set<object>
    {
      if CountingRef? then {obj} else {}
    }

    function State(): StrategyState
      reads Footprint()
    {
      match this
      case CountingRef(c) => CountingState(c.State())
      case NoRetryRef(n) => NoRetryState(n)
      case NullRetryRef(n) => NullRetryState(n)
    }
  }

  /** Each call of `HasNext()` answers true while retries remain; `Next()`
      takes one of them away and never adds one. */
  lemma NextConsumesOne(s: StrategyState)
    requires s.HasNext()
    ensures s.CountingState? && s.Remaining() > 0
    ensures s.Next().1.Remaining() == s.Remaining() - 1
    ensures s.Next().1.Reset() == s.Reset()
  {
  }

  /** Gated by `HasNext()`, `Next()` of a well-formed strategy does not
      throw, and it keeps the strategy well-formed. */
  lemma GatedNextSucceeds(s: StrategyState)
    requires s.WellFormed() && s.HasNext()
    ensures s.Next().0.Success? && s.Next().1.WellFormed()
  {
    CountingRetry.NextWithinTable(s.counting);
  }

  /** Interface-level dispatch of `Reset()`. */
  method Reset(s: IRetryStrategy)
    modifies s.Footprint()
    ensures s.State() == old(s.State()).Reset()
  {
    match s
    case CountingRef(c) => c.Reset();
    case NoRetryRef(_) =>
    case NullRetryRef(_) =>
  }

  /** Interface-level dispatch of `HasNext()`; it changes no state. */
  method HasNext(s: IRetryStrategy) returns (b: bool)
    ensures b == s.State().HasNext()
  {
    match s
    case CountingRef(c) => b := c.HasNext();
    case NoRetryRef(n) => b := n.HasNext();
    case NullRetryRef(n) => b := n.HasNext();
  }

  /** Interface-level dispatch of `Next()`. */
  method Next(s: IRetryStrategy) returns (r: Result<Duration>)
    modifies s.Footprint()
    ensures (r, s.State()) == old(s.State()).Next()
  {
    match s
    case CountingRef(c) => r := c.Next();
    case NoRetryRef(n) => r := n.Next();
    case NullRetryRef(n) => r := n.Next();
  }
}
