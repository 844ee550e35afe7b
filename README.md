# Extreal.Core: retry handling and dispose-once, in Dafny

This project models two parts of Extreal.Core, a C# utility library for Unity:

- **Retrying.** `RetryHandler.Handle` runs an operation. While it throws an exception that the caller's `isRetryable` predicate accepts and the retry strategy still has a retry, `Handle` retries it. It numbers the retries 1, 2, … on the `OnRetrying` stream. The strategies are:
  - `CountingRetryStrategy`: a bounded retry counter, with a 20-entry Fibonacci table of default waits, in seconds.
  - `NoRetryStrategy` and `NullRetryStrategy`: constant "never retry" policies.
- **Disposing once.** `SafeDisposer` runs a target's release actions until one `Dispose()` or finalizer call has run them all to the end; every later call releases nothing. Two classes build on the same idea:
  - `System.DisposableBase` wires its two virtual hooks into a `SafeDisposer`.
  - The older `DisposableBase` guards a single `FreeResources()` with its own flag.

## Files

- `common.dfy` holds the shared types:
  - exceptions as a datatype;
  - `Result` and `Option`;
  - `Duration`, which is `TimeSpan` as whole seconds;
  - which public disposal call was made.
- `counting_retry_strategy.dfy` models `CountingRetryStrategy` in two layers:
  - a pure state value, `CountingState`, with the lemmas about it;
  - the class, whose methods are proved against that value.
- `no_retry_strategy.dfy` and `null_retry_strategy.dfy` model the two stateless strategies.
- `retry_strategy.dfy` models the `IRetryStrategy` interface:
  - a reference is a tagged union over the three implementations;
  - its abstract value is a `StrategyState`;
  - dispatch methods forward each call to the implementation.
- `retry_handler.dfy` models the handler:
  - `HandleFrom` and `HandleSpec` specify the retry loop as a trace: outcome, emitted values, waits, final strategy state and number of runs;
  - the `RetryHandler` class with its constructor checks;
  - `Handle`, a `while` loop proved against `HandleSpec`.
- `retry_properties.dfy` proves what the loop guarantees.
- `retry_scenarios.dfy` proves the handler's test scenarios. They use the fixture `ClassWithRetry`, which fails on its first `failureCount` runs.
- `safe_disposer.dfy`, `system_disposable_base.dfy` and `disposable_base.dfy` model the three disposal classes, with their scenarios.

## Modelling choices

- **The strategy interface.** The strategy classes provide `TimeSpan Next()`, but `IRetryStrategy` declares `void Wait()` and the handler calls `Wait()`. The model follows the implementations: the handler's wait consumes one `Next()`.
- **Exceptions from `Next()`.** An exception thrown by the strategy's `Next()` escapes `Handle`, because it is raised inside the catch block.
- **`return run;` (`Runtime/Retry/RetryHandler.cs:41`).** As written, this line returns the delegate without invoking it. The model invokes the operation once per iteration, as the rest of the loop and the handler's tests describe. `Retry.HandleAsWritten` records the literal behaviour (see Findings).
- **The operation.** It is a function from the attempt number within one `Handle` call to an outcome. The tests reset their fixture between `Handle` calls, which matches this indexing.
- **A null strategy.** The runtime source turns a null strategy into a shared `NullRetryStrategy` (`Runtime/Retry/RetryHandler.cs:30`). The newer API that the tests use rejects a null strategy instead. The model follows the runtime source.
- **Throwing constructors.** A constructor that throws becomes a static `Create` method returning `Result`. Its real constructor requires that the checks passed. A nullable argument is an `Option`; a null object reference is `object?`.
- **Release actions.** A release action is modelled by whether it is present and by the exception it throws, if any. The actions invoked are recorded, in order, in a log. An action that throws ends the call: the remaining actions and the `isDisposed = true` assignment are skipped, and so is `GC.SuppressFinalize`. The same holds for the older class's `FreeResources()`.
- **Call sequences.** `SafeDisposal.Replay` and `CoreDisposable.Frees` fold the effect of one call (`StepOf`) over a sequence of calls. Each call starts from the `isDisposed` the previous one left. The classes' methods are specified by the same `StepOf`.
- **`GC.SuppressFinalize` and the finalizer.** `GC.SuppressFinalize` is a flag. The finalizer is an explicit method call.

## Model

| member | source | states |
|---|---|---|
| CountingRetry.CheckArguments | Runtime/Retry/CountingRetryStrategy.cs:31-42 | the constructor's two checks in their order, as an optional exception; what they accept is stated by ConstructionChecks |
| CountingRetry.IntervalAt | Runtime/Retry/CountingRetryStrategy.cs:45 | the interval function: a caller's delegate, or the default lookup `FibonacciNumbers[retryCount - 1]`, which throws IndexOutOfRangeException outside the table; its properties are stated by NextWithinTable, NextPastTableThrows and DefaultWaits |
| CountingRetry.ConstructionChecks | Runtime/Retry/CountingRetryStrategy.cs:29-42 | fewer than one retry throws ArgumentOutOfRangeException "Please specify 1 or more"; more than 20 retries with the default intervals throws the table-length ArgumentOutOfRangeException; the checks pass exactly when 1 <= maxRetryCount and (default intervals ==> maxRetryCount <= 20) |
| CountingRetry.DefaultsAreAccepted | Runtime/Retry/CountingRetryStrategy.cs:29 | the default maxRetryCount 12 with the default intervals is accepted, as is 20; 21 is refused |
| CountingRetry.CountingRetryStrategy.Create | Runtime/Retry/CountingRetryStrategy.cs:29-46 | construction fails with the checks' exception, or yields a fresh strategy with the given bound, a missing delegate defaulting to the Fibonacci table, and count 0; it succeeds iff 1 <= max and (no delegate ==> max <= 20) |
| CountingRetry.CountingRetryStrategy.constructor | Runtime/Retry/CountingRetryStrategy.cs:44-45 | a strategy that passed the checks stores its bound and interval function and starts at count 0 |
| CountingRetry.CountingRetryStrategy.Reset | Runtime/Retry/CountingRetryStrategy.cs:49 | the count becomes 0 and the configuration is unchanged |
| CountingRetry.CountingRetryStrategy.HasNext | Runtime/Retry/CountingRetryStrategy.cs:52 | true exactly while retries remain: `Remaining() > 0`, the measure each `Next()` lowers by one |
| CountingRetry.CountingRetryStrategy.Next | Runtime/Retry/CountingRetryStrategy.cs:55-59 | the count rises by exactly one and the result is the interval at the incremented count |
| CountingRetry.NextWithinTable | Runtime/Retry/CountingRetryStrategy.cs:45-58 | for a strategy that passed construction, `Next()` gated by `HasNext()` does not throw, and the default lookup index lies in [0, 20) and yields `FibonacciNumbers[retryCount]` |
| CountingRetry.NextPastTableThrows | Runtime/Retry/CountingRetryStrategy.cs:45 | the default lookup has no guard of its own: an ungated `Next()` past the end of the table throws IndexOutOfRangeException |
| CountingRetry.AfterNextsCounts | Runtime/Retry/CountingRetryStrategy.cs:55-59 | k calls of `Next()` raise the count by exactly k and change nothing else |
| CountingRetry.ResetThenNexts | Runtime/Retry/CountingRetryStrategy.cs:49-59 | after `Reset()`, `HasNext()` holds before call k+1 of `Next()` iff k < maxRetryCount, and call k+1 returns the interval for k+1 |
| CountingRetry.DefaultWaits | Runtime/Retry/CountingRetryStrategy.cs:45 | with the default intervals, the k-th `Next()` after `Reset()` is allowed for every k <= maxRetryCount and returns `FibonacciNumbers[k-1]` seconds |
| CountingRetry.TableRecurrence | Runtime/Retry/CountingRetryStrategy.cs:15 | the table satisfies F[i+2] == F[i+1] + F[i] |
| CountingRetry.TableIsFibonacci | Runtime/Retry/CountingRetryStrategy.cs:13-16 | every table entry i equals the reference Fibonacci number Fib(i) |
| NoRetry.NeverRetries | Runtime/Retry/NoRetryStrategy.cs:16-36 | the only value is `Instance`; `Reset` changes nothing, `HasNext` is always false, `Next` always throws InvalidOperationException("Unreachable") |
| NullRetry.NeverRetries | Runtime/Retry/NullRetryStrategy.cs:7-11 | `Reset` changes nothing, `HasNext` is always false, `Next` always throws InvalidOperationException("Unreachable") |
| RetryStrategy.NextConsumesOne | Runtime/Retry/CountingRetryStrategy.cs:52-59 | only a counting strategy can answer `HasNext()` true; each such `Next()` takes exactly one remaining retry away and keeps what `Reset()` restores |
| RetryStrategy.GatedNextSucceeds | Runtime/Retry/RetryHandler.cs:49-51 | `Next()` behind a true `HasNext()` never throws (so the "Unreachable" `Next` is never reached) and keeps the strategy well-formed |
| RetryStrategy.Reset | Runtime/Retry/IRetryStrategy.cs:5 | a call through the interface resets exactly the implementation's state |
| RetryStrategy.HasNext | Runtime/Retry/IRetryStrategy.cs:6 | a call through the interface answers the implementation's `HasNext()` and changes nothing |
| RetryStrategy.Next | Runtime/Retry/RetryHandler.cs:51 | the handler's wait consumes the implementation's `Next()`: its result and new state |
| Retry.RetryHandler.Create | Runtime/Retry/RetryHandler.cs:24-31 | a null `run` throws ArgumentNullException("run") first, then a null `isRetryable` throws ArgumentNullException("isRetryable"); otherwise a fresh handler holds both, an absent strategy replaced by the shared NullRetryStrategy, with nothing emitted |
| Retry.RetryHandler.constructor | Runtime/Retry/RetryHandler.cs:26-31 | the handler stores its operation, predicate and strategy, with an empty `OnRetrying` log |
| Retry.HandleAsWritten | Runtime/Retry/RetryHandler.cs:33-41 | the loop as written: after the reset, the first iteration returns the delegate itself, with no invocation and no emission; the gap to the tests is stated by AsWrittenNeverRuns |
| Retry.RetryHandler.Handle | Runtime/Retry/RetryHandler.cs:33-64 | the result, the values appended to `OnRetrying` and the strategy's new state are exactly those of the loop specification `HandleSpec` from the strategy's state at the call |
| RetryProperties.EmitsConsecutive | Runtime/Retry/RetryHandler.cs:52-57 | from any point, the emitted values are retryCount+1, retryCount+2, … one per retry, each retry with one wait and one more run |
| RetryProperties.HandleEmitsOneToK | Runtime/Retry/RetryHandler.cs:35-57 | one `Handle` call emits exactly 1, 2, …, k for its k retries and runs the operation k+1 times |
| RetryProperties.RetriesBounded | Runtime/Retry/RetryHandler.cs:49-57 | no call retries more often than the strategy has retries left |
| RetryProperties.CountingHandleTerminates | Runtime/Retry/RetryHandler.cs:37-64 | with CountingRetryStrategy(n) a call retries at most n times and runs at most n+1 times |
| RetryProperties.OutcomeIsLastAttempt | Runtime/Retry/RetryHandler.cs:37-64 | the first k runs failed retryably with `HasNext()` true each time; the strategy consumed exactly k `Next()` calls; the outcome is run k's own value or very exception; a rethrow means `HasNext()` was false or the exception not retryable |
| RetryProperties.RetryDecision | Runtime/Retry/RetryHandler.cs:49-62 | a failed run is retried iff `HasNext() && isRetryable(e)`; otherwise that same exception is rethrown with no wait and no emission |
| RetryProperties.NeverRetryRunsOnce | Runtime/Retry/RetryHandler.cs:49-62 | under NoRetryStrategy or NullRetryStrategy the operation runs once, its outcome is the call's, nothing is emitted, and the strategy is unchanged |
| RetryProperties.FinalResetsLikeInitial | Runtime/Retry/RetryHandler.cs:36-51 | the loop changes only the strategy's count: resetting its final state equals resetting its initial state |
| RetryProperties.HandleIsRepeatable | Runtime/Retry/RetryHandler.cs:35-36 | because `Handle` resets the strategy first, a second call repeats the first exactly when the operation gives the same outcomes on each call |
| RetryProperties.RetryStep | Runtime/Retry/RetryHandler.cs:49-57 | a retryable failure with `HasNext()` true waits `Next()`'s interval, emits retryCount+1 and continues from the advanced state |
| RetryProperties.CountingRetries | Runtime/Retry/RetryHandler.cs:37-64 | for a counting strategy, if exactly the next k runs fail retryably (k within the retries left), the call emits retryCount+1..retryCount+k, waits k times, runs k+1 times and ends with run k's outcome |
| RetryProperties.CountingWaits | Runtime/Retry/RetryHandler.cs:49-51 | for a counting strategy with c retries used, the i-th wait is the interval at count c+1+i |
| RetryProperties.CountingExhaustion | Runtime/Retry/RetryHandler.cs:37-64 | with CountingRetryStrategy(n) and an always-retryable failure, a call emits 1..n, waits n times with the i-th wait the interval for i, runs n+1 times and rethrows the last exception |
| RetryProperties.DefaultWaitsAreFibonacci | Runtime/Retry/CountingRetryStrategy.cs:45-58 | with the default intervals the waits from count c are `FibonacciNumbers[c..c+k]`, within the table |
| RetryProperties.HandleWaitsFibonacci | Runtime/Retry/RetryHandler.cs:36-51 | a `Handle` call under the default intervals waits 0, 1, 1, 2, … seconds: `FibonacciNumbers[..k]` |
| RetryScenarios.NoRetryScenarios | Tests/Runtime/Retry/RetryHandlerTest.cs:39-97 | under NoRetryStrategy: no failure gives the value in one run; three failures give the fixture's exception in one run; nothing emitted |
| RetryScenarios.CountingNoExceptionScenario | Tests/Runtime/Retry/RetryHandlerTest.cs:102-126 | default CountingRetryStrategy, no failure: one run, the value, no emission, no wait |
| RetryScenarios.CountingRecoveryScenario | Tests/Runtime/Retry/RetryHandlerTest.cs:130-154 | CountingRetryStrategy(3), three failures: four runs (three throwing), the value, `[1, 2, 3]` emitted after waits of 0, 1, 1 seconds |
| RetryScenarios.CountingNoRecoveryScenario | Tests/Runtime/Retry/RetryHandlerTest.cs:158-188 | CountingRetryStrategy(2), three failures: three runs, `[1, 2]` emitted, the fixture's exception rethrown unchanged |
| RetryScenarios.NotRetryableScenario | Runtime/Retry/RetryHandler.cs:49-62 | an exception the predicate rejects is rethrown after one run even with retries left |
| RetryScenarios.AsWrittenNeverRuns | Runtime/Retry/RetryHandler.cs:41 | as written, the recovery scenario runs the operation zero times and emits nothing, where the invoking model runs it four times and emits `[1, 2, 3]` |
| RetryScenarios.ReuseScenario | Tests/Runtime/Retry/RetryHandlerTest.cs:193-257 | three `Handle` calls on one handler with CountingRetryStrategy(2) each rethrow the fixture's exception and leave `OnRetrying` at `[1, 2, 1, 2, 1, 2]` |
| RetryScenarios.NullStrategyScenario | Runtime/Retry/RetryHandler.cs:24-30 | a handler built without a strategy never retries: a failing operation is rethrown after one run, nothing emitted |
| RetryScenarios.HandlerConstructionScenarios | Runtime/Retry/RetryHandler.cs:28-29 | a handler without `run` or `isRetryable` throws ArgumentNullException naming it |
| RetryScenarios.CountingConstructionScenarios | Runtime/Retry/CountingRetryStrategy.cs:29-42 | CountingRetryStrategy(0) and (21) throw ArgumentOutOfRangeException with their messages, as the strategy's tests expect; (20) and the defaults succeed |
| SafeDisposal.CheckArguments | Runtime/System/SafeDisposer.cs:38-44 | the constructor's two checks in their order, as an optional exception; what they accept is stated by ConstructionChecks |
| SafeDisposal.ConstructionChecks | Runtime/System/SafeDisposer.cs:36-47 | construction succeeds iff a target and at least one action are given; no action throws ArgumentException even with a null target too; an action without a target throws ArgumentNullException("target") |
| SafeDisposal.SafeDisposer.Create | Runtime/System/SafeDisposer.cs:36-47 | construction fails with the checks' exception, or yields a fresh, undisposed disposer holding the target and actions with nothing released |
| SafeDisposal.SafeDisposer.constructor | Runtime/System/SafeDisposer.cs:44-46 | a disposer that passed the checks stores target and actions and starts undisposed with nothing released |
| SafeDisposal.InvokeStopsAtThrow | Runtime/System/SafeDisposer.cs:75-84 | the actions invoked are a prefix of the plan; the call throws iff some planned action throws, and then stops at the first such action with its exception; otherwise every planned action ran |
| SafeDisposal.NoThrowCompletes | Runtime/System/SafeDisposer.cs:63-85 | with no action throwing, a first call releases its whole plan, throws nothing and leaves the object disposed |
| SafeDisposal.DisposedReleasesNothing | Runtime/System/SafeDisposer.cs:65-68 | once disposed, no sequence of `Dispose()`/finalizer calls releases anything |
| SafeDisposal.OnlyFirstCallReleases | Runtime/System/SafeDisposer.cs:52-85 | when the first call's actions complete, only it releases, whatever follows: managed then unmanaged for `Dispose()`, unmanaged only for the finalizer, absent actions skipped, each action at most once |
| SafeDisposal.ThrowingCallLeavesUndisposed | Runtime/System/SafeDisposer.cs:77-84 | a call whose action throws leaves `isDisposed` false, so the calls after it release as on a fresh object |
| SafeDisposal.ThrowingManagedScenario | Runtime/System/SafeDisposer.cs:57-84 | with a throwing managed action, two `Dispose()` calls invoke it twice and never the unmanaged one; a later finalizer run still releases the unmanaged resources |
| SafeDisposal.CallsFollowReplay | Runtime/System/SafeDisposer.cs:52-85 | whichever actions throw, `Dispose()` and then the finalizer on one disposer log exactly the releases `Replay` folds for that call sequence |
| SafeDisposal.DisposeThenFinalizer | Tests/Runtime/System/DisposableBaseTest.cs:171-188 | `Dispose()` followed by the finalizer releases managed and unmanaged once each |
| SafeDisposal.SafeDisposer.DisposeByFinalizer | Runtime/System/SafeDisposer.cs:52 | one finalizer step: if not yet disposed the unmanaged action runs; a throw is passed on and leaves the object undisposed; finalization is not suppressed |
| SafeDisposal.SafeDisposer.Dispose | Runtime/System/SafeDisposer.cs:57-61 | one `Dispose()` step: if not yet disposed, managed then unmanaged actions run up to the first throw; finalization is suppressed exactly when nothing was thrown |
| SafeDisposal.SafeDisposer.DisposeCore | Runtime/System/SafeDisposer.cs:63-85 | returns at once when disposed; otherwise appends the actions invoked in order up to the first throw, and sets the flag only if all completed |
| SafeDisposal.SafeDisposer.Release | Runtime/System/SafeDisposer.cs:77-82 | an action runs only while the flag is still false, is logged once, and throws its exception if it has one |
| SystemDisposable.DisposableBase.constructor | Runtime/System/DisposableBase.cs:21-22 | construction always succeeds: a fresh undisposed disposer targets the object with both hooks present, throwing as the subclass's overrides do |
| SystemDisposable.DisposableBase.Finalize | Runtime/System/DisposableBase.cs:24 | the finalizer forwards to `DisposeByFinalizer`: the same finalizer step on the object's disposer |
| SystemDisposable.DisposableBase.Dispose | Runtime/System/DisposableBase.cs:36 | `Dispose()` forwards to the disposer: the same `Dispose()` step, finalization suppressed exactly when no hook threw |
| SystemDisposable.DisposeScenario | Tests/Runtime/System/DisposableBaseTest.cs:133-140 | after `Dispose()` each hook has run once |
| SystemDisposable.RepeatDisposeScenario | Tests/Runtime/System/DisposableBaseTest.cs:142-152 | a second `Dispose()` runs neither hook again: counts stay at 1 and 1 |
| SystemDisposable.FinalizerScenario | Tests/Runtime/System/DisposableBaseTest.cs:154-168 | the finalizer of a never-disposed object runs the unmanaged hook once and the managed hook never |
| SystemDisposable.DisposeThenFinalizerScenario | Tests/Runtime/System/DisposableBaseTest.cs:170-188 | `Dispose()` and then the finalizer leave each hook run once |
| SystemDisposable.ThrowingManagedHookScenario | Runtime/System/DisposableBase.cs:22-36 | with a throwing managed hook, each `Dispose()` rethrows it, runs that hook again and never the unmanaged one, and leaves the object undisposed with finalization not suppressed |
| CoreDisposable.DisposedFreesNothing | Runtime/DisposableBase.cs:48-51 | once disposed, no sequence of calls frees anything |
| CoreDisposable.FreedAtMostOnce | Runtime/DisposableBase.cs:32-55 | with a `FreeResources()` that does not throw, as the class asks, any interleaving of `Dispose()` and finalizer calls from a fresh object frees exactly once if any call is made, and never otherwise |
| CoreDisposable.ThrowingFreeRepeats | Runtime/DisposableBase.cs:46-55 | a `FreeResources()` that throws leaves the object undisposed, so every call frees again: n calls free n times |
| CoreDisposable.DisposableBase.constructor | Runtime/DisposableBase.cs:22-24 | a new object is undisposed, with nothing freed |
| CoreDisposable.DisposableBase.Finalize | Runtime/DisposableBase.cs:32-35 | the finalizer takes the same guarded path: it frees only if not yet disposed, passes on a throw, and is disposed afterwards exactly when nothing was thrown |
| CoreDisposable.DisposableBase.Dispose | Runtime/DisposableBase.cs:40-44 | frees only if not yet disposed; disposed afterwards and finalization suppressed exactly when nothing was thrown |
| CoreDisposable.DisposableBase.DisposeInternal | Runtime/DisposableBase.cs:46-55 | returns at once when disposed; otherwise calls `FreeResources()` once and sets the flag only if it did not throw |
| CoreDisposable.DisposableBase.FreeResources | Runtime/DisposableBase.cs:30 | the subclass's release runs while the object is still undisposed, once per call, throwing what the subclass throws |
| CoreDisposable.FinalizerScenario | Tests/Runtime/DisposableBaseTest.cs:17-33 | the finalizer of a never-disposed object frees its resources once |
| CoreDisposable.DisposeTwiceScenario | Tests/Runtime/DisposableBaseTest.cs:50-62 | a second `Dispose()`, and a finalizer after it, free nothing further: the count stays at 1 |
| CoreDisposable.ThrowingFreeScenario | Runtime/DisposableBase.cs:40-55 | with a throwing `FreeResources()`, two `Dispose()` calls both rethrow and free twice; the object stays undisposed with finalization not suppressed |
| CoreDisposable.CallsFollowFrees | Runtime/DisposableBase.cs:32-55 | whether or not `FreeResources()` throws, `Dispose()`, the finalizer and `Dispose()` on one object free exactly as often as `Frees` folds for that call sequence |

## Left out

- Logging (`ELogger`, `IsDebug`, `LogDebug`): output only, with no effect on the logic.
- The observable plumbing of `RetryHandler`: the UniRx `Subject` behind `OnRetrying`, the `AddTo(disposables)` done by its getter, and `ReleaseManagedResources` disposing the `CompositeDisposable`. `OnRetrying` is modelled as an append-only log.
- `Runtime/Hook/ObservableExtensions.cs`: a wrapper over UniRx subscription, whose delivery semantics are not visible here.
- Actually waiting. The durations are recorded in the trace, but time does not pass.
- Garbage-collector timing. When a finalizer runs is up to the runtime; the model calls it explicitly.
- The newer handler API that the tests use: `Of`, `HandleAsync`, `OnRetried`, cancellation, and async operations. None of it is in the runtime sources modelled here.
- A caller's `nextRetryInterval` delegate is a total function. A delegate that throws is not modelled.
- An `isRetryable` predicate that throws is not modelled.
- Release actions that re-enter the disposer, by calling `Dispose()` from inside an action. An action is modelled as one log entry plus an optional exception.
- Retry.RetryHandler.Handle: the operation `run` is indexed by the attempt number within one `Handle` call, so every call starts again at `run(0)`. A `Func<object>` whose outcomes depend on earlier `Handle` calls, such as a counter that is not reset between calls, is not modelled. The repeatability and scenario results hold for an operation that behaves the same on each call, as the test fixtures do after `Reset()`.
- Other `IRetryStrategy` implementations (`Runtime/Retry/IRetryStrategy.cs:3`) are not modelled: the interface is a closed union of the three core strategies. Termination, `RetryProperties.RetriesBounded` and repeatability (`Runtime/Retry/RetryHandler.cs:26`, `:37`) are proved for these three only. A caller's strategy whose `HasNext()` stays true would make the loop run forever.
- CountingRetry.CountingRetryStrategy.Next: the 32-bit `int` count is unbounded here. Overflow cannot occur behind `HasNext()`, because the bound is itself an `int`.
- Exception messages are compared as strings. The framework text added to them (parameter name, actual value) is not modelled.
- The default hooks of `System.DisposableBase` do nothing. The model counts their invocations, the way the tests' subclasses do. An override is modelled only by whether it throws, and which exception.
- Whether a release action or `FreeResources()` throws is fixed per object. One that throws on one call and completes on the next is not modelled.

## Findings

| source | as written | input that shows it | evidently intended | confidence | as-written member | corrected member |
|---|---|---|---|---|---|---|
| Runtime/Retry/RetryHandler.cs:41 | `return run;` returns the delegate without invoking it, so the catch branch never runs and no retry can happen | `ClassWithRetry(3)` with `CountingRetryStrategy(3)`: as written, 0 runs and nothing emitted; the tests expect 4 runs and `[1, 2, 3]` | invoke the operation on each iteration and return its result | high; not executed | Retry.HandleAsWritten, with the counterexample RetryScenarios.AsWrittenNeverRuns | Retry.RetryHandler.Handle |
