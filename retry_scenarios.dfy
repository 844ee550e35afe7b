/**
 * The handler's test scenarios, with the operation of the test fixture
 * ClassWithRetry: its run number `runCount` (from 1) fails with an
 * AccessViolationException while `failureCount != 0 && runCount <=
 * failureCount`, and otherwise returns a fixed string. The tests reset the
 * fixture between `Handle` calls, which matches an operation indexed by the
 * attempt within one call.
 */
module RetryScenarios {
  import opened Common
  import opened Retry
  import opened RetryProperties
  import CountingRetry
  import RetryStrategy
  import NoRetry

  const FixtureException := OtherException("AccessViolationException", "THROW RETRY TEST")
  const FixtureValue := "RETURN RETRY TEST"

  /** ClassWithRetry(failureCount).RunFunc, as the outcome of its `i`-th run. */
  function ClassWithRetry(failureCount: int): nat -> Outcome<string>
  {
    (i: nat) => if failureCount != 0 && i + 1 <= failureCount then Threw(FixtureException) else Returned(FixtureValue)
  }

  /** The tests' predicate `e => e is AccessViolationException`. */
  predicate IsAccessViolation(e: Exception)
  {
    e.OtherException? && e.typeName == "AccessViolationException"
  }

  /** A CountingRetryStrategy(n) with the default intervals after `used` retries. */
  function Counting(n: int, used: nat): RetryStrategy.StrategyState
  {
    RetryStrategy.CountingState(CountingRetry.CountingState(n, CountingRetry.Fibonacci, used))
  }

  /** NoRetryStrategy, no failure: one run, the value, no emission. With
      three failures: one run, the fixture's exception rethrown, no emission. */
  lemma NoRetryScenarios()
    ensures HandleSpec(ClassWithRetry(0), IsAccessViolation, RetryStrategy.NoRetryState(NoRetry.Instance))
      == HandleTrace(Returned(FixtureValue), [], [], RetryStrategy.NoRetryState(NoRetry.Instance), 1)
    ensures HandleSpec(ClassWithRetry(3), IsAccessViolation, RetryStrategy.NoRetryState(NoRetry.Instance))
      == HandleTrace(Threw(FixtureException), [], [], RetryStrategy.NoRetryState(NoRetry.Instance), 1)
  {
    NeverRetryRunsOnce(ClassWithRetry(0), IsAccessViolation, RetryStrategy.NoRetryState(NoRetry.Instance));
    NeverRetryRunsOnce(ClassWithRetry(3), IsAccessViolation, RetryStrategy.NoRetryState(NoRetry.Instance));
  }

  /** Default CountingRetryStrategy (12 retries), no failure: one run, the
      value, no emission and no wait. */
  lemma CountingNoExceptionScenario(used: nat)
    ensures var t := HandleSpec(ClassWithRetry(0), IsAccessViolation, Counting(12, used));
      t.outcome == Returned(FixtureValue) && t.emitted == [] && t.waits == [] && t.runs == 1
  {
    StopsWithoutRetry(ClassWithRetry(0), IsAccessViolation, Counting(12, 0), 0);
  }

  /** CountingRetryStrategy(3) with three failures: four runs, the first three
      throwing, the value returned, `[1, 2, 3]` emitted after waits of 0, 1 and
      1 seconds. */
  lemma CountingRecoveryScenario(used: nat)
    ensures var t := HandleSpec(ClassWithRetry(3), IsAccessViolation, Counting(3, used));
      && t.outcome == Returned(FixtureValue)
      && t.emitted == [1, 2, 3]
      && t.waits == [0, 1, 1]
      && t.runs == 4
      && (forall j :: 0 <= j < 3 ==> ClassWithRetry(3)(j).Threw?)
  {
    var run, s := ClassWithRetry(3), Counting(3, 0);
    CountingRetries(run, IsAccessViolation, s, 0, 3);
    HandleWaitsFibonacci(run, IsAccessViolation, s);
    assert Consecutive(1, 3) == [1, 2, 3];
    assert CountingRetry.FibonacciNumbers[..3] == [0, 1, 1];
  }

  /** CountingRetryStrategy(2) with three failures: three runs, all throwing,
      `[1, 2]` emitted, and the fixture's exception rethrown unchanged. */
  lemma CountingNoRecoveryScenario(used: nat)
    ensures var t := HandleSpec(ClassWithRetry(3), IsAccessViolation, Counting(2, used));
      && t.outcome == Threw(FixtureException)
      && t.emitted == [1, 2]
      && t.waits == [0, 1]
      && t.runs == 3
      && t.final == Counting(2, 2)
  {
    var run, s := ClassWithRetry(3), Counting(2, 0);
    CountingRetries(run, IsAccessViolation, s, 0, 2);
    HandleWaitsFibonacci(run, IsAccessViolation, s);
    OutcomeIsLastAttempt(run, IsAccessViolation, s, 0);
    assert Advance(s, 2) == Counting(2, 2);
    assert Consecutive(1, 2) == [1, 2];
    assert CountingRetry.FibonacciNumbers[..2] == [0, 1];
  }

  /** An exception the predicate rejects is rethrown at once, even with
      retries left: one run, no emission. */
  lemma NotRetryableScenario(used: nat)
    ensures HandleSpec(ClassWithRetry(3), e => false, Counting(12, used))
      == HandleTrace(Threw(FixtureException), [], [], Counting(12, 0), 1)
  {
    RetryDecision(ClassWithRetry(3), e => false, Counting(12, 0), 0);
  }

  /** As written, `Handle` never invokes the operation, so the recovery
      scenario, which the tests expect to emit `[1, 2, 3]` over four runs,
      emits nothing and runs nothing; the invoking model gives the expected
      trace. */
  lemma AsWrittenNeverRuns()
    ensures HandleAsWritten(ClassWithRetry(3), Counting(3, 0)).2 == []
    ensures HandleAsWritten(ClassWithRetry(3), Counting(3, 0)).3 == 0
    ensures HandleSpec(ClassWithRetry(3), IsAccessViolation, Counting(3, 0)).emitted == [1, 2, 3]
    ensures HandleSpec(ClassWithRetry(3), IsAccessViolation, Counting(3, 0)).runs == 4
  {
    CountingRecoveryScenario(0);
  }

  /** The Reuse test: three `Handle` calls on one handler with
      CountingRetryStrategy(2) and three failures each rethrow the fixture's
      exception, and the subscriber sees `[1, 2, 1, 2, 1, 2]`. */
  method ReuseScenario() returns (first: Outcome<string>, second: Outcome<string>, third: Outcome<string>, log: seq<int>)
    ensures first == second == third == Threw(FixtureException)
    ensures log == [1, 2, 1, 2, 1, 2]
  {
    var created := CountingRetry.CountingRetryStrategy.Create(2, None);
    var strategy := created.value;
    var built := RetryHandler.Create(Some(ClassWithRetry(3)), Some(IsAccessViolation), Some(RetryStrategy.CountingRef(strategy)));
    var handler := built.value;
    CountingNoRecoveryScenario(0);
    first := handler.Handle();
    CountingNoRecoveryScenario(2);
    second := handler.Handle();
    third := handler.Handle();
    log := handler.onRetrying;
  }

  /** A handler built with a null strategy never retries: a failing operation
      runs once and its exception is rethrown, with nothing emitted. */
  method NullStrategyScenario() returns (r: Outcome<string>, log: seq<int>)
    ensures r == Threw(FixtureException) && log == []
  {
    var built := RetryHandler.Create(Some(ClassWithRetry(3)), Some(IsAccessViolation), None);
    var handler := built.value;
    NeverRetryRunsOnce(ClassWithRetry(3), IsAccessViolation, DefaultStrategy.State());
    r := handler.Handle();
    log := handler.onRetrying;
  }

  /** The handler's construction checks: a null operation or predicate
      throws ArgumentNullException naming it. */
  method HandlerConstructionScenarios()
    returns (noRun: Result<RetryHandler<string>>, noPredicate: Result<RetryHandler<string>>)
    ensures noRun == Failure(ArgumentNullException("run"))
    ensures noPredicate == Failure(ArgumentNullException("isRetryable"))
  {
    noRun := RetryHandler.Create(None, Some(IsAccessViolation), None);
    noPredicate := RetryHandler.Create(Some(ClassWithRetry(0)), None, None);
  }

  /** The strategy's construction tests: CountingRetryStrategy(0) and (21)
      throw ArgumentOutOfRangeException, while (20) and the defaults
      succeed. */
  method CountingConstructionScenarios()
    returns (zero: Result<CountingRetry.CountingRetryStrategy>, tooMany: Result<CountingRetry.CountingRetryStrategy>,
             most: Result<CountingRetry.CountingRetryStrategy>, defaults: Result<CountingRetry.CountingRetryStrategy>)
    ensures zero == Failure(ArgumentOutOfRangeException("maxRetryCount", 0, CountingRetry.TooFewRetriesMessage))
    ensures tooMany == Failure(ArgumentOutOfRangeException("maxRetryCount", 21, CountingRetry.TooManyRetriesMessage))
    ensures most.Success? && defaults.Success?
  {
    zero := CountingRetry.CountingRetryStrategy.Create(0, None);
    tooMany := CountingRetry.CountingRetryStrategy.Create(21, None);
    most := CountingRetry.CountingRetryStrategy.Create(20, None);
    defaults := CountingRetry.CountingRetryStrategy.Create(CountingRetry.DefaultMaxRetryCount, None);
  }
}
