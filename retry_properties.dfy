/**
 * What the retry loop guarantees, stated over its specification `HandleFrom`
 * (and through `Handle`'s postcondition, over the handler itself).
 */
module RetryProperties {
  import opened Common
  import opened Retry
  import CountingRetry
  import RetryStrategy

  /** `len` consecutive integers starting at `from`. */
  function Consecutive(from: int, len: nat): seq<int>
  {
    seq(len, i => from + i)
  }

  lemma ConsecutiveCons(from: int, len: nat)
    requires len > 0
    ensures [from] + Consecutive(from + 1, len - 1) == Consecutive(from, len)
  {
  }

  /** The attempt failed with an exception the caller classifies as retryable. */
  predicate RetryableFailure<T>(o: Outcome<T>, isRetryable: Exception -> bool)
  {
    o.Threw? && isRetryable(o.exception)
  }

  /** The strategy state after `k` calls of `Next()`: only a counting
      strategy has state that `Next()` changes. */
  function Advance(s: RetryStrategy.StrategyState, k: nat): RetryStrategy.StrategyState
  {
    match s
    case CountingState(c) => RetryStrategy.CountingState(CountingRetry.AfterNexts(c, k))
    case _ => s
  }

  /** Within one call the emitted values are `retryCount + 1, retryCount + 2,
      ...`, one per retry; each retry took one wait and one more invocation
      of the operation. */
  lemma {:induction false} EmitsConsecutive<T>(run: nat -> Outcome<T>, isRetryable: Exception -> bool,
                                               s: RetryStrategy.StrategyState, retryCount: nat)
    ensures var t := HandleFrom(run, isRetryable, s, retryCount);
      && t.emitted == Consecutive(retryCount + 1, |t.emitted|)
      && |t.waits| == |t.emitted|
      && t.runs == |t.emitted| + 1
    decreases s.Remaining()
  {
    var t := HandleFrom(run, isRetryable, s, retryCount);
    if run(retryCount).Threw? && s.HasNext() && isRetryable(run(retryCount).exception) && s.Next().0.Success? {
      var s' := s.Next().1;
      var rest := HandleFrom(run, isRetryable, s', retryCount + 1);
      EmitsConsecutive(run, isRetryable, s', retryCount + 1);
      assert t == HandleTrace(rest.outcome, [retryCount + 1] + rest.emitted, [s.Next().0.value] + rest.waits,
                              rest.final, rest.runs + 1);
      ConsecutiveCons(retryCount + 1, |t.emitted|);
    } else {
      assert t.emitted == [] && t.waits == [] && t.runs == 1;
    }
  }

  /** A `Handle` call emits exactly `1, 2, ..., k` for its `k` retries and
      invokes the operation `k + 1` times. */
  lemma HandleEmitsOneToK<T>(run: nat -> Outcome<T>, isRetryable: Exception -> bool, s: RetryStrategy.StrategyState)
    ensures var t := HandleSpec(run, isRetryable, s);
      && (forall i :: 0 <= i < |t.emitted| ==> t.emitted[i] == i + 1)
      && t.runs == |t.emitted| + 1
  {
    EmitsConsecutive(run, isRetryable, s.Reset(), 0);
  }

  /** No call retries more often than the strategy has retries left. */
  lemma {:induction false} RetriesBounded<T>(run: nat -> Outcome<T>, isRetryable: Exception -> bool,
                                             s: RetryStrategy.StrategyState, retryCount: nat)
    ensures |HandleFrom(run, isRetryable, s, retryCount).emitted| <= s.Remaining()
    decreases s.Remaining()
  {
    if run(retryCount).Threw? && s.HasNext() && isRetryable(run(retryCount).exception) && s.Next().0.Success? {
      RetriesBounded(run, isRetryable, s.Next().1, retryCount + 1);
    }
  }

  /** With `CountingRetryStrategy(n)` a `Handle` call retries at most `n`
      times, so the loop ends after at most `n + 1` invocations. */
  lemma CountingHandleTerminates<T>(run: nat -> Outcome<T>, isRetryable: Exception -> bool, s: RetryStrategy.StrategyState)
    requires s.CountingState? && s.WellFormed()
    ensures |HandleSpec(run, isRetryable, s).emitted| <= s.counting.maxRetryCount
    ensures HandleSpec(run, isRetryable, s).runs <= s.counting.maxRetryCount + 1
  {
    RetriesBounded(run, isRetryable, s.Reset(), 0);
    EmitsConsecutive(run, isRetryable, s.Reset(), 0);
  }

  /**
   * For a well-formed strategy, with `k` the number of retries of the call:
   * - the first `k` invocations failed retryably, each time with `HasNext()`
   *   true, and the strategy consumed exactly `k` calls of `Next()`;
   * - the outcome is that of invocation `k` itself: its value, or the very
   *   exception it threw (never one of the strategy's own);
   * - a thrown outcome means `HasNext()` was false or the exception was not
   *   retryable.
   */
  lemma {:induction false} OutcomeIsLastAttempt<T>(run: nat -> Outcome<T>, isRetryable: Exception -> bool,
                                                   s: RetryStrategy.StrategyState, retryCount: nat)
    requires s.WellFormed()
    ensures var t := HandleFrom(run, isRetryable, s, retryCount); var k := |t.emitted|;
      && (forall j :: retryCount <= j < retryCount + k ==> RetryableFailure(run(j), isRetryable))
      && (forall i :: 0 <= i < k ==> Advance(s, i).HasNext())
      && t.final == Advance(s, k)
      && t.outcome == run(retryCount + k)
      && (t.outcome.Threw? ==> !t.final.HasNext() || !isRetryable(t.outcome.exception))
    decreases s.Remaining()
  {
    var t := HandleFrom(run, isRetryable, s, retryCount);
    if run(retryCount).Threw? && s.HasNext() && isRetryable(run(retryCount).exception) {
      RetryStrategy.GatedNextSucceeds(s);
      var s' := s.Next().1;
      OutcomeIsLastAttempt(run, isRetryable, s', retryCount + 1);
      var rest := HandleFrom(run, isRetryable, s', retryCount + 1);
      assert |t.emitted| == |rest.emitted| + 1;
      forall i | 0 <= i < |t.emitted|
        ensures Advance(s, i).HasNext()
      {
        if i > 0 {
          assert Advance(s, i) == Advance(s', i - 1);
        }
      }
    }
  }

  /** A failed attempt is retried exactly when `HasNext()` and
      `isRetryable(e)` hold; otherwise that same exception is rethrown
      without any wait or emission. */
  lemma RetryDecision<T>(run: nat -> Outcome<T>, isRetryable: Exception -> bool,
                         s: RetryStrategy.StrategyState, retryCount: nat)
    requires s.WellFormed() && run(retryCount).Threw?
    ensures var t := HandleFrom(run, isRetryable, s, retryCount);
      (|t.emitted| > 0 <==> s.HasNext() && isRetryable(run(retryCount).exception))
    ensures var t := HandleFrom(run, isRetryable, s, retryCount);
      !(s.HasNext() && isRetryable(run(retryCount).exception)) ==>
        t == HandleTrace(run(retryCount), [], [], s, 1)
  {
    if s.HasNext() && isRetryable(run(retryCount).exception) {
      RetryStrategy.GatedNextSucceeds(s);
    }
  }

  /** An attempt that succeeds, or fails when no retry is allowed, ends the
      call with its own outcome: no further invocation, wait or emission. */
  lemma StopsWithoutRetry<T>(run: nat -> Outcome<T>, isRetryable: Exception -> bool,
                             s: RetryStrategy.StrategyState, retryCount: nat)
    requires !(s.HasNext() && RetryableFailure(run(retryCount), isRetryable))
    ensures HandleFrom(run, isRetryable, s, retryCount) == HandleTrace(run(retryCount), [], [], s, 1)
  {
  }

  /** Under NoRetryStrategy or NullRetryStrategy the operation runs exactly
      once and its outcome, value or exception, is the call's; nothing is
      emitted and the strategy's throwing `Next()` is never reached. */
  lemma NeverRetryRunsOnce<T>(run: nat -> Outcome<T>, isRetryable: Exception -> bool, s: RetryStrategy.StrategyState)
    requires s.NoRetryState? || s.NullRetryState?
    ensures HandleSpec(run, isRetryable, s) == HandleTrace(run(0), [], [], s, 1)
  {
  }

  /** The loop leaves the strategy's configuration alone: resetting its final
      state gives the same state as resetting its initial one. */
  lemma {:induction false} FinalResetsLikeInitial<T>(run: nat -> Outcome<T>, isRetryable: Exception -> bool,
                                                     s: RetryStrategy.StrategyState, retryCount: nat)
    ensures HandleFrom(run, isRetryable, s, retryCount).final.Reset() == s.Reset()
    decreases s.Remaining()
  {
    if run(retryCount).Threw? && s.HasNext() && isRetryable(run(retryCount).exception) {
      RetryStrategy.NextConsumesOne(s);
      if s.Next().0.Success? {
        FinalResetsLikeInitial(run, isRetryable, s.Next().1, retryCount + 1);
      }
    }
  }

  /** Because `Handle` resets the strategy first, a second call on the same
      handler (with the operation behaving the same) repeats the first exactly;
      with `Handle`'s postcondition the `OnRetrying` log of two calls is the
      first call's emissions twice, e.g. `[1, 2, 1, 2]`. */
  lemma HandleIsRepeatable<T>(run: nat -> Outcome<T>, isRetryable: Exception -> bool, s: RetryStrategy.StrategyState)
    ensures HandleSpec(run, isRetryable, HandleSpec(run, isRetryable, s).final) == HandleSpec(run, isRetryable, s)
  {
    FinalResetsLikeInitial(run, isRetryable, s.Reset(), 0);
    assert s.Reset().Reset() == s.Reset();
  }

  /** One retry step: a retryable failure while `HasNext()` holds under a
      well-formed strategy waits `Next()`'s interval, emits `retryCount + 1`
      and continues from the advanced state. */
  lemma RetryStep<T>(run: nat -> Outcome<T>, isRetryable: Exception -> bool,
                     s: RetryStrategy.StrategyState, retryCount: nat)
    requires s.WellFormed() && s.HasNext() && RetryableFailure(run(retryCount), isRetryable)
    ensures s.Next().0.Success?
    ensures var rest := HandleFrom(run, isRetryable, s.Next().1, retryCount + 1);
      HandleFrom(run, isRetryable, s, retryCount)
        == HandleTrace(rest.outcome, [retryCount + 1] + rest.emitted, [s.Next().0.value] + rest.waits, rest.final, rest.runs + 1)
  {
    RetryStrategy.GatedNextSucceeds(s);
  }

  /** The last step of `CountingRetries`: no retry is left or allowed, so the
      call ends with this invocation's outcome. */
  lemma CountingRetriesStop<T>(run: nat -> Outcome<T>, isRetryable: Exception -> bool,
                               s: RetryStrategy.StrategyState, retryCount: nat)
    requires s.CountingState?
    requires s.Remaining() == 0 || !RetryableFailure(run(retryCount), isRetryable)
    ensures var t := HandleFrom(run, isRetryable, s, retryCount);
      && t.emitted == Consecutive(retryCount + 1, 0)
      && |t.waits| == 0
      && t.runs == 1
      && t.outcome == run(retryCount)
  {
    StopsWithoutRetry(run, isRetryable, s, retryCount);
    assert Consecutive(retryCount + 1, 0) == [];
  }

  /** One retry step of `CountingRetries`: what the rest of the call does
      after the retry, shifted by that retry. */
  lemma CountingRetriesStep<T>(run: nat -> Outcome<T>, isRetryable: Exception -> bool,
                               s: RetryStrategy.StrategyState, retryCount: nat, k: nat)
    requires s.WellFormed() && s.HasNext() && RetryableFailure(run(retryCount), isRetryable)
    requires k > 0
    requires var rest := HandleFrom(run, isRetryable, s.Next().1, retryCount + 1);
      && rest.emitted == Consecutive(retryCount + 2, k - 1)
      && |rest.waits| == k - 1
      && rest.runs == k
      && rest.outcome == run(retryCount + k)
    ensures var t := HandleFrom(run, isRetryable, s, retryCount);
      && t.emitted == Consecutive(retryCount + 1, k)
      && |t.waits| == k
      && t.runs == k + 1
      && t.outcome == run(retryCount + k)
  {
    RetryStep(run, isRetryable, s, retryCount);
    ConsecutiveCons(retryCount + 1, k);
  }

  /** For a counting strategy: if exactly the next `k` invocations fail
      retryably (with `k` at most the retries left, and invocation `k`
      succeeding or failing unretryably unless the retries are used up), the
      call emits `retryCount + 1 .. retryCount + k`, takes `k` waits, runs
      `k + 1` times and ends with invocation `k`'s outcome. */
  lemma {:induction false} CountingRetries<T>(run: nat -> Outcome<T>, isRetryable: Exception -> bool,
                                              s: RetryStrategy.StrategyState, retryCount: nat, k: nat)
    requires s.CountingState? && s.WellFormed()
    requires k <= s.Remaining()
    requires forall j :: retryCount <= j < retryCount + k ==> RetryableFailure(run(j), isRetryable)
    requires k == s.Remaining() || !RetryableFailure(run(retryCount + k), isRetryable)
    ensures var t := HandleFrom(run, isRetryable, s, retryCount);
      && t.emitted == Consecutive(retryCount + 1, k)
      && |t.waits| == k
      && t.runs == k + 1
      && t.outcome == run(retryCount + k)
    decreases k
  {
    if k == 0 {
      CountingRetriesStop(run, isRetryable, s, retryCount);
    } else {
      assert RetryableFailure(run(retryCount), isRetryable);
      assert s.HasNext();
      RetryStrategy.NextConsumesOne(s);
      RetryStrategy.GatedNextSucceeds(s);
      assert retryCount + 1 + (k - 1) == retryCount + k;
      CountingRetries(run, isRetryable, s.Next().1, retryCount + 1, k - 1);
      CountingRetriesStep(run, isRetryable, s, retryCount, k);
    }
  }

  /** For a counting strategy with `c` retries used, the `i`-th wait of the
      call is the interval for count `c + 1 + i`. */
  lemma {:induction false} CountingWaits<T>(run: nat -> Outcome<T>, isRetryable: Exception -> bool,
                                            s: RetryStrategy.StrategyState, retryCount: nat)
    requires s.CountingState? && s.WellFormed()
    ensures var t := HandleFrom(run, isRetryable, s, retryCount);
      forall i :: 0 <= i < |t.waits| ==>
        CountingRetry.IntervalAt(s.counting.nextRetryInterval, s.counting.retryCount + 1 + i) == Success(t.waits[i])
    decreases s.Remaining()
  {
    if run(retryCount).Threw? && s.HasNext() && isRetryable(run(retryCount).exception) {
      RetryStep(run, isRetryable, s, retryCount);
      RetryStrategy.NextConsumesOne(s);
      CountingWaits(run, isRetryable, s.Next().1, retryCount + 1);
    }
  }

  /** Exhaustion: with `CountingRetryStrategy(n)` and an operation that always
      fails retryably, a `Handle` call emits `1 .. n`, waits the intervals for
      `1 .. n`, runs `n + 1` times and rethrows the last exception. */
  lemma CountingExhaustion<T>(run: nat -> Outcome<T>, isRetryable: Exception -> bool, s: RetryStrategy.StrategyState)
    requires s.CountingState? && s.WellFormed()
    requires forall j :: 0 <= j <= s.counting.maxRetryCount ==> RetryableFailure(run(j), isRetryable)
    ensures var t := HandleSpec(run, isRetryable, s);
      && t.emitted == Consecutive(1, s.counting.maxRetryCount)
      && t.runs == s.counting.maxRetryCount + 1
      && t.outcome == run(s.counting.maxRetryCount)
      && t.outcome.Threw?
    ensures var t := HandleSpec(run, isRetryable, s);
      && |t.waits| == s.counting.maxRetryCount
      && forall i :: 0 <= i < |t.waits| ==>
           CountingRetry.IntervalAt(s.counting.nextRetryInterval, i + 1) == Success(t.waits[i])
  {
    CountingRetries(run, isRetryable, s.Reset(), 0, s.counting.maxRetryCount);
    CountingWaits(run, isRetryable, s.Reset(), 0);
  }

  /** With the default intervals, the waits of a `Handle` call are the first
      entries of the Fibonacci table: 0, 1, 1, 2, ... seconds. */
  lemma DefaultWaitsAreFibonacci<T>(run: nat -> Outcome<T>, isRetryable: Exception -> bool,
                                    s: RetryStrategy.StrategyState, retryCount: nat)
    requires s.CountingState? && s.WellFormed() && s.counting.nextRetryInterval.Fibonacci?
    requires s.counting.retryCount <= s.counting.maxRetryCount
    ensures var t := HandleFrom(run, isRetryable, s, retryCount);
      s.counting.retryCount + |t.waits| <= |CountingRetry.FibonacciNumbers|
      && t.waits == CountingRetry.FibonacciNumbers[s.counting.retryCount .. s.counting.retryCount + |t.waits|]
  {
    var t := HandleFrom(run, isRetryable, s, retryCount);
    var c := s.counting.retryCount;
    CountingWaits(run, isRetryable, s, retryCount);
    RetriesBounded(run, isRetryable, s, retryCount);
    EmitsConsecutive(run, isRetryable, s, retryCount);
    assert c + |t.waits| <= |CountingRetry.FibonacciNumbers|;
    forall i | 0 <= i < |t.waits|
      ensures t.waits[i] == CountingRetry.FibonacciNumbers[c + i]
    {
      assert CountingRetry.IntervalAt(CountingRetry.Fibonacci, c + 1 + i) == Success(t.waits[i]);
    }
  }

  /** A `Handle` call under the default intervals waits
      `FibonacciNumbers[0 .. k]` for its `k` retries. */
  lemma HandleWaitsFibonacci<T>(run: nat -> Outcome<T>, isRetryable: Exception -> bool, s: RetryStrategy.StrategyState)
    requires s.CountingState? && s.WellFormed() && s.counting.nextRetryInterval.Fibonacci?
    ensures var t := HandleSpec(run, isRetryable, s);
      |t.waits| <= |CountingRetry.FibonacciNumbers| && t.waits == CountingRetry.FibonacciNumbers[..|t.waits|]
  {
    DefaultWaitsAreFibonacci(run, isRetryable, s.Reset(), 0);
  }
}
