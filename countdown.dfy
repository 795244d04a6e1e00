/** The one-second countdown the rest screen and the drink popup both run as a
    `LaunchedEffect` keyed on the counter. While the counter is positive the
    effect waits a second and decrements it, which starts the effect again;
    otherwise it calls `onFinish`. Each run of the effect is one step here. */
module Countdown {

  /** Whether the effect that runs for counter value `c` calls `onFinish`. */
  predicate EffectFinishes(c: int)
  {
    c <= 0
  }

  /** The counter after the effect for value `c` has run. */
  function AfterEffect(c: int): int
  {
    if c > 0 then c - 1 else c
  }

  /** The counter after `n` runs of the effect from `start`. */
  function AfterEffects(start: int, n: nat): int
  {
    if n == 0 then start else AfterEffect(AfterEffects(start, n - 1))
  }

  /** From a non-negative start the counter goes down by one per run, never below
      0, and the effect calls `onFinish` for the first time on run `start + 1`,
      right after the counter has reached 0. */
  lemma {:induction false} CountdownFinishesAtZero(start: int, n: nat)
    requires start >= 0
    ensures AfterEffects(start, n) == if n <= start then start - n else 0
    ensures AfterEffects(start, n) >= 0
    ensures EffectFinishes(AfterEffects(start, n)) <==> n >= start
  {
    if n > 0 {
      CountdownFinishesAtZero(start, n - 1);
    }
  }

  /** A start of 0 or less is never counted down: the first run finishes. */
  lemma {:induction false} NonPositiveStartFinishesAtOnce(start: int, n: nat)
    requires start <= 0
    ensures AfterEffects(start, n) == start
    ensures EffectFinishes(AfterEffects(start, n))
  {
    if n > 0 {
      NonPositiveStartFinishesAtOnce(start, n - 1);
    }
  }
}
