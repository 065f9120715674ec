/**
 * The backoff schedule of the outbox: 5 s doubling per attempt, capped at one hour,
 * and its total length against the lifetime of a completion record.
 */
module RetryBackoff {

  const BASE_RETRY_DELAY_MS: int := 5_000
  const MAX_RETRY_DELAY_MS: int := 3_600_000
  /** Lifetime of a "handler already done" record: seven days. */
  const LEDGER_TTL_MS: int := 604_800_000

  function Pow2(n: nat): (p: int)
    ensures p >= 1
  {
    if n == 0 then 1 else 2 * Pow2(n - 1)
  }

  /** The delay written after the given (1-based) attempt failed; attempts below 1 count as 1. */
  function RetryDelayMs(attempts: int): (d: int)
    ensures BASE_RETRY_DELAY_MS <= d <= MAX_RETRY_DELAY_MS
  {
    var exponent := if attempts - 1 > 0 then attempts - 1 else 0;
    var uncapped := BASE_RETRY_DELAY_MS * Pow2(exponent);
    if uncapped < MAX_RETRY_DELAY_MS then uncapped else MAX_RETRY_DELAY_MS
  }

  lemma {:induction false} Pow2Monotone(m: nat, n: nat)
    requires m <= n
    ensures Pow2(m) <= Pow2(n)
  {
    if m < n {
      Pow2Monotone(m, n - 1);
    }
  }

  lemma Pow2Values()
    ensures Pow2(9) == 512 && Pow2(10) == 1024
  {
    assert Pow2(5) == 32;
    assert Pow2(9) == 16 * Pow2(5);
  }

  /** Later attempts never wait less, and the cap is reached at attempt 11 and kept. */
  lemma RetryDelayMonotone(a: int, b: int)
    requires a <= b
    ensures RetryDelayMs(a) <= RetryDelayMs(b)
    ensures RetryDelayMs(b) == MAX_RETRY_DELAY_MS <==> b >= 11
  {
    var ea := if a - 1 > 0 then a - 1 else 0;
    var eb := if b - 1 > 0 then b - 1 else 0;
    Pow2Monotone(ea, eb);
    Pow2Values();
    if b >= 11 {
      Pow2Monotone(10, eb);
    } else {
      Pow2Monotone(eb, 9);
    }
  }

  /** Time spent backing off before attempt `m`, when attempts 1 .. m-1 all failed. */
  function TotalBackoffMs(m: nat): int
  {
    if m <= 1 then 0 else TotalBackoffMs(m - 1) + RetryDelayMs(m - 1)
  }

  lemma {:induction false} TotalBackoffClosedForm(m: nat)
    requires m >= 1
    ensures m <= 11 ==> TotalBackoffMs(m) == 5_000 * (Pow2(m - 1) - 1)
    ensures m >= 11 ==> TotalBackoffMs(m) == 5_115_000 + 3_600_000 * (m - 11)
  {
    if m > 1 {
      TotalBackoffClosedForm(m - 1);
      RetryDelayMonotone(m - 1, m - 1);
      Pow2Values();
    }
  }

  /**
   * The whole retry window ends before a completion record expires exactly up to 177 attempts,
   * well beyond the 20 an operator can grant at once.
   */
  lemma RetryWindowInsideLedgerTtl(m: nat)
    requires m >= 1
    ensures TotalBackoffMs(m) < LEDGER_TTL_MS <==> m <= 177
  {
    TotalBackoffClosedForm(m);
    if m <= 11 {
      Pow2Monotone(m - 1, 10);
      Pow2Values();
      assert Pow2(m - 1) - 1 <= 1023;
    }
  }
}
