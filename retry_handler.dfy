/**
 * RetryHandler: runs an operation, and while it throws an exception that the
 * caller's `isRetryable` accepts and the strategy still has a retry, waits
 * the strategy's next interval and runs it again, numbering the retries
 * 1, 2, ... on the `OnRetrying` stream.
 *
 * Modelling choices:
 * - The operation is `run(i)`, the outcome of its `i`-th invocation (from 0)
 *   within one `Handle` call.
 * - `Handle` as written returns the delegate itself (`return run;`), which
 *   never throws, so its catch branch could not run. The model invokes the
 *   operation once per loop iteration, as the rest of the method and the
 *   tests of the handler describe.
 * - The handler calls `retryStrategy.Wait()`, which the strategies do not
 *   define; the wait is modelled as consuming `Next()`. Waiting itself is left
 *   out; the durations waited appear in the trace.
 * - `onRetrying` is the log of every value emitted on the stream.
 */
module Retry {
  import opened Common
  import RetryStrategy
  import NullRetry

  /** What one invocation of the operation, or one `Handle` call, yields. */
  datatype Outcome<+T> = Returned(value: T) | Threw(exception: Exception)

  /** Everything one `Handle` call does from a given point: its outcome, the
      values it emits on `OnRetrying`, the waits it takes, the strategy state
      it leaves behind, and how many times it invokes the operation. */
  datatype HandleTrace<T> = HandleTrace(
    outcome: Outcome<T>,
    emitted: seq<int>,
    waits: seq<Duration>,
    final: RetryStrategy.StrategyState,
    runs: nat)

  /** The retry loop from strategy state `s` after `retryCount` retries. A
      failed attempt is retried only when `HasNext()` and `isRetryable(e)`
      both hold; otherwise the same exception is rethrown. An exception from
      the strategy's `Next()` is thrown inside the catch block and escapes. */
  function HandleFrom<T>(run: nat -> Outcome<T>, isRetryable: Exception -> bool,
                         s: RetryStrategy.StrategyState, retryCount: nat): HandleTrace<T>
    decreases s.Remaining()
  {
    match run(retryCount)
    case Returned(v) => HandleTrace(Returned(v), [], [], s, 1)
    case Threw(e) =>
      if s.HasNext() && isRetryable(e) then
        var (wait, s') := s.Next();
        match wait
        case Failure(err) => HandleTrace(Threw(err), [], [], s', 1)
        case Success(d) =>
          var rest := HandleFrom(run, isRetryable, s', retryCount + 1);
          HandleTrace(rest.outcome, [retryCount + 1] + rest.emitted, [d] + rest.waits, rest.final, rest.runs + 1)
      else
        HandleTrace(Threw(e), [], [], s, 1)
  }

  /** A whole `Handle` call: reset the strategy, then loop from no retries. */
  function HandleSpec<T>(run: nat -> Outcome<T>, isRetryable: Exception -> bool,
                         s: RetryStrategy.StrategyState): HandleTrace<T>
  {
    HandleFrom(run, isRetryable, s.Reset(), 0)
  }

  /** The loop invariant of `Handle`: continuing from strategy state `cur`
      after `retryCount` retries, with `logged` emitted so far, ends as the
      whole call `whole` does, which started with `start` emitted. */
  ghost predicate Continues<T>(run: nat -> Outcome<T>, isRetryable: Exception -> bool, whole: HandleTrace<T>,
                               start: seq<int>, cur: RetryStrategy.StrategyState, retryCount: nat, logged: seq<int>)
  {
    var rest := HandleFrom(run, isRetryable, cur, retryCount);
    rest.outcome == whole.outcome && rest.final == whole.final && logged + rest.emitted == start + whole.emitted
  }

  /** A retry keeps the invariant: one more retry, one more emitted value. */
  lemma ContinuesAfterRetry<T>(run: nat -> Outcome<T>, isRetryable: Exception -> bool, whole: HandleTrace<T>,
                               start: seq<int>, cur: RetryStrategy.StrategyState, retryCount: nat, logged: seq<int>)
    requires Continues(run, isRetryable, whole, start, cur, retryCount, logged)
    requires run(retryCount).Threw? && cur.HasNext() && isRetryable(run(retryCount).exception)
    requires cur.Next().0.Success?
    ensures Continues(run, isRetryable, whole, start, cur.Next().1, retryCount + 1, logged + [retryCount + 1])
    ensures cur.Next().1.Remaining() < cur.Remaining()
  {
    var rest := HandleFrom(run, isRetryable, cur.Next().1, retryCount + 1);
    assert HandleFrom(run, isRetryable, cur, retryCount).emitted == [retryCount + 1] + rest.emitted;
    assert (logged + [retryCount + 1]) + rest.emitted == logged + ([retryCount + 1] + rest.emitted);
  }

  /** Where the loop stops, the invariant gives the whole call's result: the
      attempt's value, its rethrown exception, or the exception of `Next()`,
      with nothing more emitted. */
  lemma ContinuesAtExit<T>(run: nat -> Outcome<T>, isRetryable: Exception -> bool, whole: HandleTrace<T>,
                           start: seq<int>, cur: RetryStrategy.StrategyState, retryCount: nat, logged: seq<int>)
    requires Continues(run, isRetryable, whole, start, cur, retryCount, logged)
    ensures run(retryCount).Returned? ==>
      whole.outcome == run(retryCount) && whole.final == cur && logged == start + whole.emitted
    ensures run(retryCount).Threw? && !(cur.HasNext() && isRetryable(run(retryCount).exception)) ==>
      whole.outcome == run(retryCount) && whole.final == cur && logged == start + whole.emitted
    ensures run(retryCount).Threw? && cur.HasNext() && isRetryable(run(retryCount).exception) && cur.Next().0.Failure? ==>
      whole.outcome == Threw(cur.Next().0.error) && whole.final == cur.Next().1 && logged == start + whole.emitted
  {
    assert logged + [] == logged;
  }

  /** `Handle` as written: after the reset, the first iteration executes
      `return run;`, which hands back the delegate itself without invoking
      it. The result is that delegate, the strategy state after `Reset()`,
      the values emitted (none) and the number of invocations (none). */
  function HandleAsWritten<T>(run: nat -> Outcome<T>, s: RetryStrategy.StrategyState)
    : (nat -> Outcome<T>, RetryStrategy.StrategyState, seq<int>, nat)
  {
    (run, s.Reset(), [], 0)
  }

  /** The shared strategy that stands in for a null strategy argument. */
  const DefaultStrategy: RetryStrategy.IRetryStrategy :=
    RetryStrategy.NullRetryRef(NullRetry.NullRetryStrategy)

  class RetryHandler<T> {
    const run: nat -> Outcome<T>
    const isRetryable: Exception -> bool
    const retryStrategy: RetryStrategy.IRetryStrategy
    /** Every value emitted on `OnRetrying` so far. */
    var onRetrying: seq<int>

    /** The constructor body after its null checks have passed. */
    constructor (run: nat -> Outcome<T>, isRetryable: Exception -> bool, retryStrategy: RetryStrategy.IRetryStrategy)
      ensures this.run == run && this.isRetryable == isRetryable && this.retryStrategy == retryStrategy
      ensures onRetrying == []
    {
      this.run := run;
      this.isRetryable := isRetryable;
      this.retryStrategy := retryStrategy;
      onRetrying := [];
    }

    /** `new RetryHandler(run, isRetryable, retryStrategy)`: a null `run` or
        `isRetryable` throws ArgumentNullException (checked in that order);
        a null strategy becomes the shared NullRetryStrategy. */
    static method Create(run: Option<nat -> Outcome<T>>, isRetryable: Option<Exception -> bool>,
                         retryStrategy: Option<RetryStrategy.IRetryStrategy>)
      returns (r: Result<RetryHandler<T>>)
      ensures run.None? ==> r == Failure(ArgumentNullException("run"))
      ensures run.Some? && isRetryable.None? ==> r == Failure(ArgumentNullException("isRetryable"))
      ensures run.Some? && isRetryable.Some? ==>
        && r.Success? && fresh(r.value)
        && r.value.run == run.value && r.value.isRetryable == isRetryable.value
        && r.value.retryStrategy == (if retryStrategy.Some? then retryStrategy.value else DefaultStrategy)
        && r.value.onRetrying == []
    {
      if run.None? {
        return Failure(ArgumentNullException("run"));
      }
      if isRetryable.None? {
        return Failure(ArgumentNullException("isRetryable"));
      }
      var strategy := if retryStrategy.Some? then retryStrategy.value else DefaultStrategy;
      var handler := new RetryHandler(run.value, isRetryable.value, strategy);
      r := Success(handler);
    }

    /** Runs the operation under the retry strategy. The result, the values
        appended to `onRetrying` and the strategy's new state are those of
        `HandleSpec` from the strategy's state at the call. */
    method Handle() returns (r: Outcome<T>)
      modifies this, retryStrategy.Footprint()
      ensures var t := HandleSpec(run, isRetryable, old(retryStrategy.State()));
        && r == t.outcome
        && onRetrying == old(onRetrying) + t.emitted
        && retryStrategy.State() == t.final
    {
      var retryCount: nat := 0;
      RetryStrategy.Reset(retryStrategy);
      ghost var whole := HandleSpec(run, isRetryable, old(retryStrategy.State()));
      ghost var cur := retryStrategy.State();
      assert onRetrying + [] == old(onRetrying);
      while true
        invariant retryStrategy.State() == cur
        invariant Continues(run, isRetryable, whole, old(onRetrying), cur, retryCount, onRetrying)
        decreases cur.Remaining()
      {
        ContinuesAtExit(run, isRetryable, whole, old(onRetrying), cur, retryCount, onRetrying);
        var attempt := run(retryCount);
        match attempt {
          case Returned(v) =>
            return Returned(v);
          case Threw(e) =>
            var hasNext := RetryStrategy.HasNext(retryStrategy);
            if hasNext && isRetryable(e) {
              var wait := RetryStrategy.Next(retryStrategy);
              if wait.Failure? {
                return Threw(wait.error);
              }
              ContinuesAfterRetry(run, isRetryable, whole, old(onRetrying), cur, retryCount, onRetrying);
              cur := cur.Next().1;
              retryCount := retryCount + 1;
              onRetrying := onRetrying + [retryCount];
            } else {
              return Threw(e);
            }
        }
      }
    }
  }
}
