/**
 * CountingRetryStrategy: retry up to `maxRetryCount` times, waiting
 * `nextRetryInterval(k)` before the k-th retry. Without a custom interval
 * function the k-th wait is the (k-1)-th entry of a 20-entry Fibonacci table,
 * which is why the constructor refuses more than 20 retries in that case.
 */
module CountingRetry {
  import opened Common

  /** The default wait table, in seconds. */
  const FibonacciNumbers: seq<int> :=
    [0, 1, 1, 2, 3, 5, 8, 13, 21, 34, 55, 89, 144, 233, 377, 610, 987, 1597, 2584, 4181]

  /** The default value of the constructor's `maxRetryCount` parameter. */
  const DefaultMaxRetryCount: int := 12

  const TooFewRetriesMessage := "Please specify 1 or more"
  const TooManyRetriesMessage :=
    "The default for nextRetryInterval is to use 20 Fibonacci numbers, so maxRetryCount must be less than or equal to 20. Alternatively, specify nextRetryInterval"

  /** The interval function: the default table lookup, or a caller's delegate. */
  datatype Interval = Fibonacci | Custom(f: int -> Duration)

  /** `nextRetryInterval(retryCount)`. The default looks up
      `FibonacciNumbers[retryCount - 1]` with no bounds guard of its own, so an
      index outside the table throws. */
  function IntervalAt(iv: Interval, retryCount: int): Result<Duration>
  {
    match iv
    case Custom(f) => Success(f(retryCount))
    case Fibonacci =>
      if 1 <= retryCount <= |FibonacciNumbers| then Success(FibonacciNumbers[retryCount - 1])
      else Failure(IndexOutOfRangeException)
  }

  /** The constructor's argument checks, in the order it makes them; `None`
      when it does not throw. */
  function CheckArguments(maxRetryCount: int, iv: Interval): Option<Exception>
  {
    if maxRetryCount < 1 then
      Some(ArgumentOutOfRangeException("maxRetryCount", maxRetryCount, TooFewRetriesMessage))
    else if iv.Fibonacci? && |FibonacciNumbers| < maxRetryCount then
      Some(ArgumentOutOfRangeException("maxRetryCount", maxRetryCount, TooManyRetriesMessage))
    else
      None
  }

  /** The abstract state of a CountingRetryStrategy object. */
  datatype CountingState = CountingState(maxRetryCount: int, nextRetryInterval: Interval, retryCount: nat)
  {
    /** The arguments passed the constructor's checks. */
    ghost predicate WellFormed()
    {
      CheckArguments(maxRetryCount, nextRetryInterval) == None
    }

    predicate HasNext()
    {
      retryCount < maxRetryCount
    }

    function Reset(): CountingState
    {
      this.(retryCount := 0)
    }

    /** The wait `Next()` returns (computed at the incremented count) and the
        state after it. */
    function Next(): (Result<Duration>, CountingState)
    {
      var after := this.(retryCount := retryCount + 1);
      (IntervalAt(nextRetryInterval, after.retryCount), after)
    }

    /** How many more times `HasNext()` can answer true. */
    function Remaining(): nat
    {
      if retryCount < maxRetryCount then maxRetryCount - retryCount else 0
    }
  }

  /** The state after `k` calls of `Next()`. */
  function AfterNexts(s: CountingState, k: nat): CountingState
    decreases k
  {
    if k == 0 then s else AfterNexts(s.Next().1, k - 1)
  }

  /** The construction checks: the first fails exactly for fewer than one
      retry, the second exactly for more than 20 retries with the default
      interval, and both pass otherwise. */
  lemma ConstructionChecks(maxRetryCount: int, iv: Interval)
    ensures maxRetryCount < 1 ==>
      CheckArguments(maxRetryCount, iv) == Some(ArgumentOutOfRangeException("maxRetryCount", maxRetryCount, TooFewRetriesMessage))
    ensures 1 <= maxRetryCount && iv.Fibonacci? && maxRetryCount > 20 ==>
      CheckArguments(maxRetryCount, iv) == Some(ArgumentOutOfRangeException("maxRetryCount", maxRetryCount, TooManyRetriesMessage))
    ensures CheckArguments(maxRetryCount, iv) == None <==> 1 <= maxRetryCount && (iv.Fibonacci? ==> maxRetryCount <= 20)
  {
  }

  /** Construction with the default arguments succeeds. */
  lemma DefaultsAreAccepted()
    ensures CheckArguments(DefaultMaxRetryCount, Fibonacci) == None
    ensures CheckArguments(20, Fibonacci) == None && CheckArguments(21, Fibonacci).Some?
  {
  }

  /** Gated by `HasNext()`, the default lookup stays inside the table: the
      index `retryCount - 1` after the increment lies in [0, 20), and `Next()`
      does not throw. */
  lemma NextWithinTable(s: CountingState)
    requires s.WellFormed() && s.HasNext()
    ensures s.Next().0.Success?
    ensures s.nextRetryInterval.Fibonacci? ==>
      0 <= s.retryCount < |FibonacciNumbers| && s.Next().0.value == FibonacciNumbers[s.retryCount]
  {
  }

  /** Without the `HasNext()` gate the default lookup throws once the count
      passes the end of the table. */
  lemma NextPastTableThrows(s: CountingState)
    requires s.nextRetryInterval.Fibonacci? && s.retryCount >= |FibonacciNumbers|
    ensures s.Next().0 == Failure(IndexOutOfRangeException)
  {
  }

  /** After `Reset()` and `k` calls of `Next()`, the count is `k` and nothing
      else has changed. */
  lemma {:induction false} AfterNextsCounts(s: CountingState, k: nat)
    ensures AfterNexts(s, k) == s.(retryCount := s.retryCount + k)
    decreases k
  {
    if k > 0 {
      AfterNextsCounts(s.Next().1, k - 1);
    }
  }

  /** After `Reset()`, `HasNext()` holds before exactly the first
      `maxRetryCount` calls of `Next()`, and the `k`-th call returns the
      interval for `k`. */
  lemma ResetThenNexts(s: CountingState, k: nat)
    ensures AfterNexts(s.Reset(), k).HasNext() <==> k < s.maxRetryCount
    ensures AfterNexts(s.Reset(), k).Next().0 == IntervalAt(s.nextRetryInterval, k + 1)
  {
    AfterNextsCounts(s.Reset(), k);
  }

  /** With the default interval function, the `k`-th wait after `Reset()` is
      `FibonacciNumbers[k - 1]` seconds, for every `k` the strategy allows. */
  lemma DefaultWaits(s: CountingState, k: nat)
    requires s.WellFormed() && s.nextRetryInterval.Fibonacci?
    requires 1 <= k <= s.maxRetryCount
    ensures AfterNexts(s.Reset(), k - 1).HasNext()
    ensures AfterNexts(s.Reset(), k - 1).Next().0 == Success(FibonacciNumbers[k - 1])
  {
    ResetThenNexts(s, k - 1);
  }

  /** A reference definition of the Fibonacci numbers. */
  function Fib(n: nat): nat
  {
    if n < 2 then n else Fib(n - 1) + Fib(n - 2)
  }

  /** The table obeys the Fibonacci recurrence. */
  lemma TableRecurrence(i: nat)
    requires i + 2 < |FibonacciNumbers|
    ensures FibonacciNumbers[i + 2] == FibonacciNumbers[i + 1] + FibonacciNumbers[i]
  {
  }

  /** Every table entry is the Fibonacci number of its index. */
  lemma {:induction false} TableIsFibonacci(i: nat)
    requires i < |FibonacciNumbers|
    ensures FibonacciNumbers[i] == Fib(i)
  {
    if i >= 2 {
      TableIsFibonacci(i - 1);
      TableIsFibonacci(i - 2);
      TableRecurrence(i - 2);
    }
  }

  /**
   * The stateful strategy object. `maxRetryCount` and `nextRetryInterval` are
   * readonly in the source; `retryCount` is updated by `Reset` and `Next`.
   */
  class CountingRetryStrategy {
    const maxRetryCount: int
    const nextRetryInterval: Interval
    var retryCount: nat

    function State(): CountingState
      reads this
    {
      CountingState(maxRetryCount, nextRetryInterval, retryCount)
    }

    /** The constructor body after its checks have passed. */
    constructor (maxRetryCount: int, nextRetryInterval: Interval)
      requires CheckArguments(maxRetryCount, nextRetryInterval) == None
      ensures State().WellFormed()
      ensures State() == CountingState(maxRetryCount, nextRetryInterval, 0)
    {
      this.maxRetryCount := maxRetryCount;
      this.nextRetryInterval := nextRetryInterval;
      this.retryCount := 0;
    }

    /** `new CountingRetryStrategy(maxRetryCount, nextRetryInterval)`: a null
        interval delegate selects the Fibonacci table; invalid arguments throw
        ArgumentOutOfRangeException. */
    static method Create(maxRetryCount: int, nextRetryInterval: Option<int -> Duration>)
      returns (r: Result<CountingRetryStrategy>)
      ensures var iv := if nextRetryInterval.Some? then Custom(nextRetryInterval.value) else Fibonacci;
        match CheckArguments(maxRetryCount, iv)
        case Some(e) => r == Failure(e)
        case None => r.Success? && fresh(r.value) && r.value.State().WellFormed() && r.value.State() == CountingState(maxRetryCount, iv, 0)
      ensures r.Success? <==> 1 <= maxRetryCount && (nextRetryInterval.None? ==> maxRetryCount <= 20)
    {
      var iv := if nextRetryInterval.Some? then Custom(nextRetryInterval.value) else Fibonacci;
      match CheckArguments(maxRetryCount, iv)
      case Some(e) =>
        r := Failure(e);
      case None =>
        var s := new CountingRetryStrategy(maxRetryCount, iv);
        r := Success(s);
    }

    method Reset()
      modifies this
      ensures State() == old(State()).Reset()
    {
      retryCount := 0;
    }

    /** True exactly while retries remain. */
    predicate HasNext()
      reads this
      ensures HasNext() <==> State().Remaining() > 0
    {
      State().HasNext()
    }

    /** Increments the count, then returns the interval at the new count. */
    method Next() returns (r: Result<Duration>)
      modifies this
      ensures (r, State()) == old(State()).Next()
    {
      retryCount := retryCount + 1;
      r := IntervalAt(nextRetryInterval, retryCount);
    }
  }
}
