/** The reconnect policy handed to the Redis client
    (src/server/config/redis.js, `retry_strategy`). */
module RedisConfig {
  import opened Js

  datatype ConnectionError = ConnectionError(code: Option<string>)

  /** The options object of one reconnect attempt. */
  datatype RetryOptions = RetryOptions(error: Option<ConnectionError>, totalRetryTime: int, attempt: int)

  /** An Error (give up with that error), undefined (stop retrying), or a
      delay in milliseconds before the next attempt. */
  datatype RetryDecision = GiveUp(message: string) | StopRetrying | RetryAfter(delayMs: int)

  const MaxRetryTime := 1000 * 60 * 60
  const MaxAttempts := 10
  const MaxDelay := 3000

  function Min(a: int, b: int): int {
    if a <= b then a else b
  }

  predicate Refused(options: RetryOptions) {
    options.error.Some? && options.error.value.code == Some("ECONNREFUSED")
  }

  /** The conditions are tried in order: a refused connection, then an
      exhausted hour, then more than ten attempts; otherwise the delay grows
      by 100 ms per attempt. */
  function RetryStrategy(options: RetryOptions): (r: RetryDecision)
    ensures Refused(options) ==> r == GiveUp("The server refused the connection")
    ensures !Refused(options) && options.totalRetryTime > MaxRetryTime ==> r == GiveUp("Retry time exhausted")
    ensures r == StopRetrying <==>
              !Refused(options) && options.totalRetryTime <= MaxRetryTime && options.attempt > MaxAttempts
    ensures r.RetryAfter? <==>
              !Refused(options) && options.totalRetryTime <= MaxRetryTime && options.attempt <= MaxAttempts
    ensures r.RetryAfter? ==> r.delayMs <= MaxDelay
    // The 3000 ms cap never binds: any delay returned is attempt * 100 <= 1000.
    ensures r.RetryAfter? ==> r.delayMs == options.attempt * 100 <= 1000
  {
    if Refused(options) then GiveUp("The server refused the connection")
    else if options.totalRetryTime > MaxRetryTime then GiveUp("Retry time exhausted")
    else if options.attempt > MaxAttempts then StopRetrying
    else RetryAfter(Min(options.attempt * 100, MaxDelay))
  }

  /** Later attempts never wait less. */
  lemma DelayNonDecreasing(error: Option<ConnectionError>, totalRetryTime: int, a1: int, a2: int)
    requires a1 <= a2
    requires RetryStrategy(RetryOptions(error, totalRetryTime, a2)).RetryAfter?
    ensures RetryStrategy(RetryOptions(error, totalRetryTime, a1)).RetryAfter?
    ensures RetryStrategy(RetryOptions(error, totalRetryTime, a1)).delayMs
              <= RetryStrategy(RetryOptions(error, totalRetryTime, a2)).delayMs
  {
  }
}
