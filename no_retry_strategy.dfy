/**
 * NoRetryStrategy: the policy that never retries. The class has a private
 * constructor and one shared `Instance`, so its only value is `Instance`.
 */
module NoRetry {
  import opened Common

  const UnreachableMessage := "Unreachable"

  datatype NoRetryStrategy = Instance
  {
    /** Does nothing. */
    function Reset(): NoRetryStrategy
    {
      this
    }

    predicate HasNext()
    {
      false
    }

    /** Always throws: callers must gate `Next()` behind `HasNext()`. */
    function Next(): Result<Duration>
    {
      Failure(InvalidOperationException(UnreachableMessage))
    }
  }

  /** There is exactly one NoRetryStrategy; `Reset` leaves it as it is,
      `HasNext` is always false and `Next` always throws
      InvalidOperationException("Unreachable"). */
  lemma NeverRetries(s: NoRetryStrategy)
    ensures s == Instance
    ensures s.Reset() == s
    ensures !s.HasNext()
    ensures s.Next() == Failure(InvalidOperationException("Unreachable"))
  {
  }
}
