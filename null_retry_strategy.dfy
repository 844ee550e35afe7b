/**
 * NullRetryStrategy: a stateless never-retry policy with a public
 * constructor; RetryHandler uses one shared value of it in place of a null
 * strategy argument.
 */
module NullRetry {
  import opened Common

  const UnreachableMessage := "Unreachable"

  datatype NullRetryStrategy = NullRetryStrategy
  {
    /** Does nothing. */
    function Reset(): NullRetryStrategy
    {
      this
    }

    predicate HasNext()
    {
      false
    }

    /** Always throws: callers must gate `Next()` behind `HasNext()`. */
    function Next(): Result<Duration>
    {
      Failure(InvalidOperationException(UnreachableMessage))
    }
  }

  /** `Reset` changes nothing, `HasNext` is always false and `Next` always
      throws InvalidOperationException("Unreachable"). */
  lemma NeverRetries(s: NullRetryStrategy)
    ensures s.Reset() == s
    ensures !s.HasNext()
    ensures s.Next() == Failure(InvalidOperationException("Unreachable"))
  {
  }
}
