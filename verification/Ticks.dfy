/**
 * Arithmetic of TickType_t, a 32-bit unsigned counter that wraps, against
 * unbounded time.  A point of unbounded time `n` is seen by the kernel as
 * `Low(n)`; `Epoch(n)` says how often the counter has wrapped by then.
 */
module Ticks {
  const TICK_MOD: nat := 0x1_0000_0000
  // portMAX_DELAY
  const MAX_DELAY: Tick := 0xFFFF_FFFF

  type Tick = t: nat | t < TICK_MOD

  function Low(n: nat): Tick {
    n % TICK_MOD
  }

  function Epoch(n: nat): nat {
    n / TICK_MOD
  }

  /** C's `a + b` on TickType_t. */
  function Add(a: Tick, b: Tick): (r: Tick)
    ensures r == Low(a + b)
  {
    if a + b < TICK_MOD then a + b else a + b - TICK_MOD
  }

  /** C's `a - b` on TickType_t. */
  function Sub(a: Tick, b: Tick): (r: Tick)
    ensures Add(b, r) == a
  {
    if b <= a then a - b else a + TICK_MOD - b
  }

  lemma AddAdvances(n: nat, d: Tick)
    ensures Add(Low(n), d) == Low(n + d)
  {
  }

  /** Subtracting two readings gives the elapsed time as long as it is below one wrap. */
  lemma SubIsElapsed(from: nat, to: nat)
    requires from <= to
    ensures Sub(Low(to), Low(from)) == (to - from) % TICK_MOD
  {
  }
}
