/** The Redis client's reconnection back-off: the delay before retry number
    `times` grows by 50 ms per attempt and is capped at two seconds. */
module RedisRetry {
  const StepMillis: int := 50
  const MaxDelayMillis: int := 2000

  /** `retryStrategy`: `Math.min(times * 50, 2000)`. */
  function RetryDelay(times: int): int {
    if times * StepMillis <= MaxDelayMillis then times * StepMillis else MaxDelayMillis
  }

  /** The delay never exceeds the cap, is never below it from the fortieth
      attempt on, and is 50 ms per attempt before that. */
  lemma RetryDelayShape(times: int)
    ensures RetryDelay(times) <= MaxDelayMillis
    ensures times <= 40 ==> RetryDelay(times) == 50 * times
    ensures times >= 40 ==> RetryDelay(times) == MaxDelayMillis
    ensures RetryDelay(times) == times * 50 || RetryDelay(times) == 2000
  {
  }

  /** Later attempts never wait less. */
  lemma RetryDelayMonotone(a: int, b: int)
    requires a <= b
    ensures RetryDelay(a) <= RetryDelay(b)
  {
  }
}
