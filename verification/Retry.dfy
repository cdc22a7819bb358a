/** The Core's retry delays, in milliseconds. */
module Retry {
  import opened Configuration

  const MIN_BACKOFF := 500
  const MAX_BACKOFF := 30_000
  const CLIENT_MAX_BACKOFF := 10_000
  const MAX_FAST_FAILS := 5
  const CIRCUIT_BREAKER_MAX := 300_000
  const U32_MAX := 0xFFFF_FFFF

  function SaturatingInc(n: nat): nat { if n < U32_MAX then n + 1 else n }

  function Min(a: nat, b: nat): nat { if a < b then a else b }

  function Doubled(n: nat, times: nat): nat { if times == 0 then n else 2 * Doubled(n, times - 1) }

  function Cap(role: NodeRole): nat
  {
    if role == Client then CLIENT_MAX_BACKOFF else MAX_BACKOFF
  }

  /** The delay to use now and the backoff for next time: capped exponential, with a lower cap
      for clients. */
  function RestartBackoff(backoff: nat, role: NodeRole): (r: (nat, nat))
    ensures r.0 <= r.1 <= Cap(role) && (r.1 == 2 * r.0 || r.1 == Cap(role) <= 2 * r.0)
    ensures r.0 <= backoff && (backoff <= Cap(role) ==> r.0 == backoff)
  {
    var cap := Cap(role);
    var delay := Min(backoff, cap);
    (delay, Min(delay * 2, cap))
  }

  function CircuitBreakerDelay(failures: nat): nat
  {
    var over := if failures < MAX_FAST_FAILS then 0 else failures - MAX_FAST_FAILS;
    Min(Doubled(60_000, Min(over, 3)), CIRCUIT_BREAKER_MAX)
  }

  /** What one arming of the restart timer does: the delay, and the backoff left behind. */
  function Armed(backoff: nat, role: NodeRole, failures: nat): (nat, nat)
  {
    var (delay, next) := RestartBackoff(backoff, role);
    (if failures >= MAX_FAST_FAILS then CircuitBreakerDelay(failures) else delay, next)
  }

  /** The delay in closed form: the `k`-th retry since the counters were last reset. A reset by a
      healthy session leaves the failure count one behind, so the breaker opens one retry later. */
  function RetryDelay(k: nat, afterHealthy: bool): nat
  {
    var failures := if afterHealthy then k else k + 1;
    if failures >= MAX_FAST_FAILS then CircuitBreakerDelay(failures) else Doubled(MIN_BACKOFF, k)
  }

  function Failures(k: nat, afterHealthy: bool): nat
  {
    Min(if afterHealthy then k else k + 1, U32_MAX)
  }

  /** What the backoff is known to be after `k` retries since the reset, whatever the roles were. */
  ghost predicate BackoffAfter(k: nat, backoff: nat)
  {
    if k <= 4 then backoff == Doubled(MIN_BACKOFF, k) else MIN_BACKOFF <= backoff <= MAX_BACKOFF
  }

  lemma DoublingTable()
    ensures Doubled(MIN_BACKOFF, 0) == 500 && Doubled(MIN_BACKOFF, 1) == 1000 && Doubled(MIN_BACKOFF, 2) == 2000
    ensures Doubled(MIN_BACKOFF, 3) == 4000 && Doubled(MIN_BACKOFF, 4) == 8000
    ensures Doubled(60_000, 0) == 60_000 && Doubled(60_000, 1) == 120_000 && Doubled(60_000, 2) == 240_000
    ensures Doubled(60_000, 3) == 480_000
  {
    assert Doubled(MIN_BACKOFF, 1) == 2 * Doubled(MIN_BACKOFF, 0);
    assert Doubled(MIN_BACKOFF, 2) == 2 * Doubled(MIN_BACKOFF, 1);
    assert Doubled(MIN_BACKOFF, 3) == 2 * Doubled(MIN_BACKOFF, 2);
    assert Doubled(60_000, 1) == 2 * Doubled(60_000, 0);
    assert Doubled(60_000, 2) == 2 * Doubled(60_000, 1);
  }

  /** The armed delay is the closed form for every role, even if the role changes between
      retries: the per-role caps are never reached, because the circuit breaker opens first. */
  lemma ArmedIsRetryDelay(k: nat, afterHealthy: bool, backoff: nat, role: NodeRole)
    requires BackoffAfter(k, backoff)
    ensures Armed(backoff, role, Failures(k, afterHealthy)).0 == RetryDelay(k, afterHealthy)
    ensures BackoffAfter(k + 1, Armed(backoff, role, Failures(k, afterHealthy)).1)
  {
    DoublingTable();
    if k <= 3 {
      assert Doubled(MIN_BACKOFF, k + 1) == 2 * Doubled(MIN_BACKOFF, k);
      assert Doubled(MIN_BACKOFF, k) <= 4000 by { if k == 0 {} else if k == 1 {} else if k == 2 {} else {} }
    }
    if k == U32_MAX || k > U32_MAX {
      assert CircuitBreakerDelay(Failures(k, afterHealthy)) == CIRCUIT_BREAKER_MAX;
    }
  }

  /** Between resets the delays never shrink, and they stay between half a second and five
      minutes. */
  lemma RetryDelaysGrow(j: nat, k: nat, afterHealthy: bool)
    requires j <= k
    ensures MIN_BACKOFF <= RetryDelay(j, afterHealthy) <= RetryDelay(k, afterHealthy) <= CIRCUIT_BREAKER_MAX
    decreases k - j
  {
    DoublingTable();
    if j < k {
      RetryDelaysGrow(j + 1, k, afterHealthy);
      RetryDelayStep(j, afterHealthy);
    } else {
      assert 0 <= k <= 4 ==> k == 0 || k == 1 || k == 2 || k == 3 || k == 4;
    }
  }

  lemma RetryDelayStep(k: nat, afterHealthy: bool)
    ensures MIN_BACKOFF <= RetryDelay(k, afterHealthy) <= RetryDelay(k + 1, afterHealthy)
  {
    DoublingTable();
    if k <= 4 {
      assert k == 0 || k == 1 || k == 2 || k == 3 || k == 4;
    }
  }

  /** The delays in numbers, from a fresh start and after a healthy session. */
  lemma RetryTable(k: nat)
    ensures RetryDelay(0, false) == 500 && RetryDelay(1, false) == 1_000 && RetryDelay(2, false) == 2_000
    ensures RetryDelay(3, false) == 4_000 && RetryDelay(4, false) == 60_000 && RetryDelay(5, false) == 120_000
    ensures RetryDelay(6, false) == 240_000 && (k >= 7 ==> RetryDelay(k, false) == 300_000)
    ensures RetryDelay(0, true) == 500 && RetryDelay(1, true) == 1_000 && RetryDelay(2, true) == 2_000
    ensures RetryDelay(3, true) == 4_000 && RetryDelay(4, true) == 8_000 && RetryDelay(5, true) == 60_000
    ensures RetryDelay(6, true) == 120_000 && RetryDelay(7, true) == 240_000 && (k >= 8 ==> RetryDelay(k, true) == 300_000)
  {
    DoublingTable();
  }
}
