/** Monotonic instants as whole ticks. */
module Clock {

  /** `Instant::elapsed` and `duration_since` saturate at zero. */
  function Elapsed(now: nat, since: nat): nat {
    if now < since then 0 else now - since
  }
}
