# Retrying round tripper of the inventory client

This project models `RetryRoundTripper`, the HTTP transport decorator of the inventory client
(`src/inventory_client/retry_roundtripper.go`). It forwards each request to the transport it
wraps, up to `maxRetries` times. An attempt succeeds when there is no error and the status is
in [200, 300). After a failed attempt it takes the next delay from a fresh exponential backoff
(factor 2, no jitter, from `delay` up to `maxDelay`), logs a warning and sleeps for that delay.
It returns the last `(res, err)` pair exactly as received.

Files and modules:

- `http.dfy`: `Wrappers` (an `Option` for Go's nil pointers) and `Http`. `Http` holds the
  request, a response reduced to its status code, the transport error, and the
  `(res, err)` pair (`Exchange`). `Reply` is the pair a transport keeping the
  http.RoundTripper contract may return: when it reports no error, it returns a response. The
  wrapped transport is the class `Transport`. It is an oracle: `respond(req, n)` is its reply
  to the n-th call, so any behaviour over time can be plugged in. `calls` records every
  request it receives.
- `runtime.dfy`: `Runtime`. `Clock.Sleep` stands for `time.Sleep` and `Logger.Warn` for the
  logrus warning. Each records what it is given in a ghost sequence.
- `backoff.dfy`: `ExponentialBackoff`. `ForAttempt` is the schedule of the backoff object that
  `RoundTrip` builds: `min` doubled `attempt` times, capped at `max`. The class `Backoff`
  holds the attempt counter that `Duration` advances.
- `retry_roundtripper.dfy`: `InventoryClient`. `Succeeds` is the classification of line 37.
  `RetryTrace` is a reference definition of one call of the loop: the round trips made, the
  delays slept and the pair returned. The lemmas state the loop's properties about it.
  `RetryTraceAsWritten` is the same loop with the nil dereference of line 41 kept (see
  Findings). The class `RetryRoundTripper` holds the methods `RoundTrip` and `Retry`. Their
  loop is proved to do exactly what `RetryTrace` says, for any transport: the pair returned,
  the requests sent, the sleeps taken, the warnings logged and the backoff's counter.

Two behaviours of the code are kept as written:

- Every failed attempt is followed by a delay and a sleep, the last one included. The guard
  `i <= maxRetries` on line 38 is always true inside the loop.
- With `maxRetries = 0` the transport is never called and the zero values `(nil, nil)` are
  returned. No explicit error is made up.

Durations are natural numbers of nanoseconds. The schedule `min(delay·2^(k−1), maxDelay)` for
the k-th delay (`ForAttemptIsCappedPower`) is an assumption about the backoff library, whose
code is not part of this model.

## Model

| member | source | states |
|---|---|---|
| `Http.Transport.RoundTrip` | src/inventory_client/retry_roundtripper.go:36 | the wrapped transport answers with its reply to the request for that call number and records the request |
| `Runtime.Clock.Sleep` | src/inventory_client/retry_roundtripper.go:42 | sleeping appends the delay to the record of sleeps |
| `Runtime.Logger.Warn` | src/inventory_client/retry_roundtripper.go:40-41 | a warning is appended to the log |
| `ExponentialBackoff.Doubled` | src/inventory_client/retry_roundtripper.go:26 | growing by factor 2 never goes below the start, and at least doubles it after one step |
| `ExponentialBackoff.DoubledMonotone` | src/inventory_client/retry_roundtripper.go:26 | more doublings never give a smaller value |
| `ExponentialBackoff.Pow2` | src/inventory_client/retry_roundtripper.go:26 | powers of the factor 2 are positive |
| `ExponentialBackoff.DoubledIsPow2` | src/inventory_client/retry_roundtripper.go:26 | doubling `n` times multiplies by 2^n |
| `ExponentialBackoff.ForAttemptIsCappedPower` | src/inventory_client/retry_roundtripper.go:22-28 | the delay for attempt n is min·2^n, capped at `Max` |
| `ExponentialBackoff.ForAttempt` | src/inventory_client/retry_roundtripper.go:22-28 | a delay never exceeds `Max`, and is at least `Min` when `Min <= Max` |
| `ExponentialBackoff.ForAttemptFirst` | src/inventory_client/retry_roundtripper.go:24-25 | the first delay is `Min`, or `Max` when that is smaller |
| `ExponentialBackoff.ForAttemptDoubles` | src/inventory_client/retry_roundtripper.go:26-27 | each delay is the previous one doubled (no jitter), until the cap `Max` |
| `ExponentialBackoff.ForAttemptMonotone` | src/inventory_client/retry_roundtripper.go:22-28 | delays never shrink from one attempt to a later one |
| `ExponentialBackoff.Backoff.constructor` | src/inventory_client/retry_roundtripper.go:22-28 | a new backoff has the given `Min` and `Max` and an attempt counter of zero |
| `ExponentialBackoff.Backoff.Duration` | src/inventory_client/retry_roundtripper.go:39 | returns the scheduled delay for the current attempt and advances the counter by one |
| `InventoryClient.Succeeds` | src/inventory_client/retry_roundtripper.go:37 | an attempt succeeds only with no error and a response; an error always means failure; with a response, success is no error and a status in [200, 300) |
| `InventoryClient.AttemptsFrom` | src/inventory_client/retry_roundtripper.go:34-48 | the reference definition of attempts `i` onwards: they add no calls past `maxRetries`, and never remove the i-1 already made |
| `InventoryClient.RetryTrace` | src/inventory_client/retry_roundtripper.go:33-49 | the reference definition of one whole call, from the zero values `(nil, nil)`: at most `maxRetries` round trips |
| `InventoryClient.StatusOf` | src/inventory_client/retry_roundtripper.go:41 | the status reported in the corrected warning: present exactly when the attempt returned a response, and then its status code |
| `InventoryClient.WarningsFor` | src/inventory_client/retry_roundtripper.go:40-41 | the warnings logged by the corrected loop: one per delay slept |
| `InventoryClient.WarningsForEntries` | src/inventory_client/retry_roundtripper.go:40-41 | the j-th warning names the request's method and URL, attempt j+1, its error, the delay slept after it, and a status exactly when it returned a response |
| `InventoryClient.AttemptsFromCalls` | src/inventory_client/retry_roundtripper.go:35-48 | from any attempt on: at most `maxRetries` calls in all, every attempt but the last executed one failed, the loop stops before `maxRetries` only on a success, and the result is the last reply |
| `InventoryClient.AttemptsFromDelays` | src/inventory_client/retry_roundtripper.go:37-42 | from any attempt on: one delay per failed attempt, appended after those already slept, following the backoff's schedule |
| `InventoryClient.RetryTraceFacts` | src/inventory_client/retry_roundtripper.go:33-49 | the same facts for a whole call started from the zero values |
| `InventoryClient.CallsBounded` | src/inventory_client/retry_roundtripper.go:34-36 | at most `maxRetries` round trips, and none exactly when `maxRetries` is 0 |
| `InventoryClient.ZeroRetries` | src/inventory_client/retry_roundtripper.go:34-48 | with `maxRetries = 0`: no call, no sleep, and `(nil, nil)` returned |
| `InventoryClient.ResultIsLastReply` | src/inventory_client/retry_roundtripper.go:36-48 | the pair returned is the last reply, unchanged (a final non-2xx response comes back with no error), and an early stop means a success |
| `InventoryClient.SuccessEndsLoop` | src/inventory_client/retry_roundtripper.go:37-46 | when attempt k+1 is the first success: exactly k+1 calls, k delays, and its reply is returned |
| `InventoryClient.AllAttemptsFail` | src/inventory_client/retry_roundtripper.go:35-43 | when every attempt fails: `maxRetries` calls, `maxRetries` delays (the last attempt's included), the last reply returned |
| `InventoryClient.SleepsFollowFailures` | src/inventory_client/retry_roundtripper.go:37-43 | an executed attempt is followed by a delay exactly when it failed |
| `InventoryClient.NilResponseIsRetried` | src/inventory_client/retry_roundtripper.go:37-43 | a reply with an error and no response counts as a failure: a delay follows, and a further attempt when one is left |
| `InventoryClient.DelaysFollowSchedule` | src/inventory_client/retry_roundtripper.go:22-39 | the j-th delay is the backoff's delay for its attempt `a0 + j`, none exceeds `maxDelay`, and from a fresh backoff the first is `delay` (or `maxDelay` if smaller) |
| `InventoryClient.DelaysGrow` | src/inventory_client/retry_roundtripper.go:26-39 | the delays slept never shrink, and each doubles the one before until the cap |
| `InventoryClient.AttemptsFromAsWritten` | src/inventory_client/retry_roundtripper.go:37-41 | attempts `i` onwards of the loop as written: a panic can only happen in an attempt between `i` and `maxRetries` whose round trip returned no response |
| `InventoryClient.RetryTraceAsWritten` | src/inventory_client/retry_roundtripper.go:33-49 | one whole call of the loop as written: a panic can only happen in an executed attempt whose round trip returned an error and no response |
| `InventoryClient.AsWrittenAgreesFrom` | src/inventory_client/retry_roundtripper.go:37-41 | from any attempt on, while every reply holds a response, the loop as written returns what the guarded loop returns |
| `InventoryClient.AsWrittenPanicsFrom` | src/inventory_client/retry_roundtripper.go:37-41 | from any attempt on, the first reply without a response makes the loop as written panic in that attempt |
| `InventoryClient.AsWrittenAgrees` | src/inventory_client/retry_roundtripper.go:37-41 | while every reply holds a response, the loop as written returns what the guarded loop returns |
| `InventoryClient.AsWrittenPanicsOnNilResponse` | src/inventory_client/retry_roundtripper.go:41 | the first reply with an error and no response makes the warning of that attempt dereference a nil response |
| `InventoryClient.RefusedThenOkExample` | src/inventory_client/retry_roundtripper.go:33-49 | delay 100ms, maxDelay 1s, 5 attempts, three refused connections then 200: sleeps of 100, 200 and 400 ms and the 200 response after four calls; the code as written panics on the first attempt |
| `InventoryClient.RetryRoundTripper.constructor` | src/inventory_client/retry_roundtripper.go:13-19 | the decorator holds the wrapped transport, the logger and the retry policy |
| `InventoryClient.RetryRoundTripper.RoundTrip` | src/inventory_client/retry_roundtripper.go:21-31 | a fresh backoff from `delay` to `maxDelay` per call; the result, the requests sent (all equal to `req`), the sleeps and the warnings are those of `RetryTrace` from attempt counter 0; the decorator's own fields do not change |
| `InventoryClient.RetryRoundTripper.WaitAfterFailure` | src/inventory_client/retry_roundtripper.go:38-43 | after a failed attempt: the backoff's next delay, one warning carrying it, and one sleep of it |
| `InventoryClient.RetryRoundTripper.Retry` | src/inventory_client/retry_roundtripper.go:33-49 | the loop returns the pair, sends the requests, sleeps the delays, logs the warnings and advances the backoff exactly as `RetryTrace` says |

## Left out

- The text of the warning and the six proxy variables it reads with `os.Getenv` (lines 40-41)
  are diagnostics and environment reads. A warning keeps the method, URL, status, attempt,
  delay and error.
- `time.Sleep` does not wait: the clock only records the delays.
- `net/http` requests and responses are reduced to method, URL and status code. The bodies
  of the responses the loop discards, which it does not close, are not modelled.
- A reply with neither a response nor an error is excluded by the type `Reply`. That is the
  http.RoundTripper contract. The code would dereference nil on line 37 for such a reply.
- The backoff library (github.com/jpillora/backoff) is not part of this model. Its
  floating-point arithmetic, its jitter (which `RoundTrip` turns off), its defaults for a zero
  `Min` or `Max`, and the atomic update of its counter are replaced by the integer schedule
  of `ForAttempt`.
- Durations are natural numbers. Negative `time.Duration` values are not modelled.
- `maxRetries` is an unbounded natural number. With Go's `uint` counter, `maxRetries` equal
  to the largest `uint` would make `i++` wrap to 0, and the loop would not end until an
  attempt succeeds. That case is not modelled.
- Concurrent `RoundTrip` calls share no mutable state, so concurrency is not modelled.
- Nesting one decorator inside another is not modelled, because a Dafny class cannot be
  passed where a `Transport` is expected without traits.

## Findings

| source | as written | input that shows it | evidently intended | confidence | as-written member | corrected member |
|---|---|---|---|---|---|---|
| src/inventory_client/retry_roundtripper.go:41 | the warning on the failure path reads `res.StatusCode` even when the transport returned an error and a nil response | the wrapped transport returns `(nil, connection refused)` on an attempt, as `http.Transport` does for a refused connection | report a status only when there is a response, and retry the transport error | high, not executed | `InventoryClient.AsWrittenPanicsOnNilResponse` | `InventoryClient.NilResponseIsRetried` |
