/** Backoff and retry of the local model client (`crates/probe/src/ollama.rs`, `compute_backoff_ms`). */
module Retry {
  import opened Text
  import opened Nes

  const U64_MAX: nat := 0xFFFF_FFFF_FFFF_FFFF

  function Pow2(n: nat): (p: nat)
    ensures p >= 1
  {
    if n == 0 then 1 else 2 * Pow2(n - 1)
  }

  /** `u64::saturating_mul`. */
  function SaturatingMul(a: nat, b: nat): nat { Min(Times(a, b), U64_MAX) }

  function Times(a: nat, b: nat): nat { a * b }

  function ComputeBackoffMs(attempt: nat, baseMs: nat, maxMs: nat): nat {
    Min(SaturatingMul(baseMs, Pow2(Min(attempt, 30))), maxMs)
  }

  /** The wait without the detour over 64-bit saturation. */
  function Ideal(attempt: nat, baseMs: nat): nat {
    Times(baseMs, Pow2(Min(attempt, 30)))
  }

  lemma IdealGrows(attempt: nat, baseMs: nat)
    ensures Ideal(attempt, baseMs) <= Ideal(attempt + 1, baseMs)
    ensures Ideal(attempt + 1, baseMs) == if attempt < 30 then 2 * Ideal(attempt, baseMs) else Ideal(attempt, baseMs)
  {
    hide Times;
    var p := Pow2(Min(attempt, 30));
    if attempt < 30 {
      assert Pow2(attempt + 1) == 2 * p;
      Doubled(baseMs, p);
    }
  }

  lemma Doubled(a: nat, p: nat)
    ensures Times(a, 2 * p) == 2 * Times(a, p) && Times(a, p) >= 0
  {
  }

  /** Saturation never shows: the first wait is the base, each of the next thirty twice the one before, later ones the
      same again, and the cap holds for all. So waits never shrink from one attempt to the next. */
  lemma BackoffExact(attempt: nat, baseMs: nat, maxMs: nat)
    requires maxMs <= U64_MAX
    ensures ComputeBackoffMs(attempt, baseMs, maxMs) == Min(Ideal(attempt, baseMs), maxMs)
    ensures ComputeBackoffMs(attempt, baseMs, maxMs) <= ComputeBackoffMs(attempt + 1, baseMs, maxMs) <= maxMs
    ensures ComputeBackoffMs(0, baseMs, maxMs) == Min(baseMs, maxMs)
    ensures ComputeBackoffMs(attempt + 1, baseMs, maxMs)
         == if attempt < 30 then Min(2 * ComputeBackoffMs(attempt, baseMs, maxMs), maxMs)
            else ComputeBackoffMs(attempt, baseMs, maxMs)
  {
    SaturationHidden(0, baseMs, maxMs);
    assert Ideal(0, baseMs) == baseMs by { FirstWait(baseMs); }
    SaturationHidden(attempt, baseMs, maxMs);
    SaturationHidden(attempt + 1, baseMs, maxMs);
    IdealGrows(attempt, baseMs);
    hide Ideal, ComputeBackoffMs;
  }

  lemma FirstWait(baseMs: nat)
    ensures Ideal(0, baseMs) == baseMs
  {
  }

  lemma SaturationHidden(attempt: nat, baseMs: nat, maxMs: nat)
    requires maxMs <= U64_MAX
    ensures ComputeBackoffMs(attempt, baseMs, maxMs) == Min(Ideal(attempt, baseMs), maxMs)
  {
    hide Pow2, Times;
  }

  predicate ShouldRetry(attempt: nat, maxRetries: nat) { attempt < maxRetries }

  /** `OllamaClient::complete`: the first success among at most `max_retries + 1` attempts, else the last failure; one
      wait before each repetition. */
  method Complete(server: nat -> Reply, maxRetries: nat, baseMs: nat, maxMs: nat)
    returns (reply: Reply, waits: seq<nat>)
    ensures |waits| <= maxRetries && reply == server(|waits|)
    ensures forall k :: 0 <= k < |waits| ==> server(k).Err? && waits[k] == ComputeBackoffMs(k, baseMs, maxMs)
    ensures reply.Err? ==> |waits| == maxRetries
  {
    var attempt := 0;
    waits := [];
    while true
      invariant attempt == |waits| <= maxRetries
      invariant forall k :: 0 <= k < attempt ==> server(k).Err? && waits[k] == ComputeBackoffMs(k, baseMs, maxMs)
      decreases maxRetries - attempt
    {
      match server(attempt) {
        case Ok(value) =>
          return Ok(value), waits;
        case Err(e) =>
          if !ShouldRetry(attempt, maxRetries) {
            return Err(e), waits;
          }
          waits := waits + [ComputeBackoffMs(attempt, baseMs, maxMs)];
          attempt := attempt + 1;
      }
    }
  }
}
