/** The option defaults of `Execute` and the wait between its attempts, in the 64-bit
    signed arithmetic of `time.Duration`. */
module Backoff {
  import opened Int64

  const TWO_TO_33: int := 0x2_0000_0000

  function Min(a: int, b: int): int {
    if a <= b then a else b
  }

  function Pow2(k: nat): (r: nat)
    ensures r > 0
  {
    if k == 0 then 1 else 2 * Pow2(k - 1)
  }

  datatype Config = Config(maxAttempts: int, baseDelay: int, maxDelay: int)

  const TEN_MILLISECONDS: int := 10_000_000

  function Normalise(c: Config): (r: Config)
    ensures r.maxAttempts >= 1 && 0 < r.baseDelay <= r.maxDelay
    ensures if c.maxAttempts >= 1 then r.maxAttempts == c.maxAttempts else r.maxAttempts == 1
    ensures if c.baseDelay > 0 then r.baseDelay == c.baseDelay else r.baseDelay == 10_000_000
    ensures if c.maxDelay >= r.baseDelay then r.maxDelay == c.maxDelay else r.maxDelay == r.baseDelay
  {
    var base := if c.baseDelay <= 0 then TEN_MILLISECONDS else c.baseDelay;
    Config(if c.maxAttempts < 1 then 1 else c.maxAttempts, base, if c.maxDelay < base then base else c.maxDelay)
  }

  /** The exact doubling, and what the code computes of it. */
  function Doubled(base: int, attempt: nat): int {
    base * Pow2(Min(attempt, 30))
  }

  function Cap(c: Config, attempt: nat): int {
    Min(Wrap(Doubled(c.baseDelay, attempt)), c.maxDelay)
  }

  /** The time slept for one random draw: below the cap, or nothing if there is no cap. */
  function Wait(c: Config, attempt: nat, draw: nat): int {
    var cap := Cap(c, attempt);
    if cap > 0 then draw % cap else cap
  }

  lemma {:induction false} Pow2Monotone(j: nat, k: nat)
    requires j <= k
    ensures Pow2(j) <= Pow2(k)
  {
    if j < k {
      Pow2Monotone(j, k - 1);
    }
  }

  lemma Pow2Thirty()
    ensures Pow2(30) == 0x4000_0000
  {
    assert Pow2(10) == 1024;
    assert Pow2(20) == 1024 * 1024;
  }

  lemma DoubledMonotone(base: int, j: nat, k: nat)
    requires base > 0 && j <= k
    ensures 0 < base <= Doubled(base, j) <= Doubled(base, k) <= Doubled(base, 30)
  {
    Pow2Monotone(Min(j, 30), Min(k, 30));
    Pow2Monotone(Min(k, 30), 30);
    Product(base, 1, Pow2(Min(j, 30)));
    Product(base, Pow2(Min(j, 30)), Pow2(Min(k, 30)));
    Product(base, Pow2(Min(k, 30)), Pow2(30));
  }

  lemma Product(base: int, m: nat, n: nat)
    requires base > 0 && m <= n
    ensures base * m <= base * n
  {
    assert base * n - base * m == base * (n - m);
  }

  /** The attempts an `Execute` with these options can make are below `MaxAttempts`; none of
      them overflows exactly when the last one does not. */
  ghost predicate NeverOverflows(c: Config) {
    forall attempt: nat | attempt < c.maxAttempts ::
        Wrap(Doubled(c.baseDelay, attempt)) == Doubled(c.baseDelay, attempt)
  }

  lemma NeverOverflowsIff(c: Config)
    requires IsInt64(c.baseDelay)
    ensures var n := Normalise(c); NeverOverflows(n) <==> Doubled(n.baseDelay, n.maxAttempts - 1) < TWO_TO_63
  {
    var n := Normalise(c);
    if Doubled(n.baseDelay, n.maxAttempts - 1) < TWO_TO_63 {
      forall attempt: nat | attempt < n.maxAttempts
        ensures Wrap(Doubled(n.baseDelay, attempt)) == Doubled(n.baseDelay, attempt)
      {
        DoubledMonotone(n.baseDelay, attempt, n.maxAttempts - 1);
      }
    }
  }

  /** A base delay below 2^33 ns is safe for every `MaxAttempts`, and no other is. */
  lemma SafeBaseDelayIff(base: int, maxDelay: int)
    requires 0 < base && IsInt64(base)
    ensures (forall maxAttempts :: NeverOverflows(Normalise(Config(maxAttempts, base, maxDelay)))) <==> base < TWO_TO_33
  {
    Pow2Thirty();
    if base < TWO_TO_33 {
      forall maxAttempts ensures NeverOverflows(Normalise(Config(maxAttempts, base, maxDelay))) {
        var n := Normalise(Config(maxAttempts, base, maxDelay));
        DoubledMonotone(base, n.maxAttempts - 1, n.maxAttempts - 1);
        NeverOverflowsIff(Config(maxAttempts, base, maxDelay));
      }
    } else {
      NeverOverflowsIff(Config(31, base, maxDelay));
      assert !NeverOverflows(Normalise(Config(31, base, maxDelay)));
    }
  }

  /** Without overflow every wait lies in [0, min(base * 2^min(attempt, 30), MaxDelay)), and
      that interval is never empty and only ever grows with the attempts. */
  lemma WaitBounds(c: Config, attempt: nat, later: nat, draw: nat)
    requires NeverOverflows(Normalise(c)) && attempt <= later < Normalise(c).maxAttempts
    ensures
      var n := Normalise(c);
      && 0 <= Wait(n, attempt, draw) < Min(Doubled(n.baseDelay, attempt), n.maxDelay)
      && n.baseDelay <= Cap(n, attempt) <= Cap(n, later) <= n.maxDelay
      && (attempt >= 30 ==> Cap(n, later) == Cap(n, attempt))
  {
    var n := Normalise(c);
    DoubledMonotone(n.baseDelay, attempt, later);
    assert Wrap(Doubled(n.baseDelay, attempt)) == Doubled(n.baseDelay, attempt);
    assert Wrap(Doubled(n.baseDelay, later)) == Doubled(n.baseDelay, later);
  }

  lemma DrawBelowCap(c: Config, attempt: nat, draw: nat)
    requires draw < Cap(c, attempt)
    ensures Wait(c, attempt, draw) == draw
  {
    hide Cap;
  }

  /** Every wait below the cap is possible. */
  lemma EveryWaitPossible(c: Config, attempt: nat, wait: nat)
    requires NeverOverflows(Normalise(c)) && attempt < Normalise(c).maxAttempts
    requires wait < Min(Doubled(Normalise(c).baseDelay, attempt), Normalise(c).maxDelay)
    ensures exists draw: nat :: Wait(Normalise(c), attempt, draw) == wait
  {
    var n := Normalise(c);
    assert Cap(n, attempt) == Min(Doubled(n.baseDelay, attempt), n.maxDelay);
    DrawBelowCap(n, attempt, wait);
  }

  /** With a base delay of 2^33 ns and at least 31 attempts the product wraps to a negative cap
      from attempt 30 on, and the backoff is gone: whatever the draw, there is no wait. */
  lemma BackoffCollapses(maxAttempts: int, attempt: nat, draw: nat)
    requires 30 <= attempt < maxAttempts
    ensures var c := Config(maxAttempts, TWO_TO_33, TWO_TO_63 - 1); Normalise(c) == c && Wait(c, attempt, draw) < 0
  {
    Pow2Thirty();
    assert Doubled(TWO_TO_33, attempt) == TWO_TO_63;
  }

  /** With the default number of attempts it does not. */
  lemma DefaultAttemptsAreSafeThere()
    ensures NeverOverflows(Config(10, TWO_TO_33, TWO_TO_63 - 1))
  {
    assert Pow2(9) == 512;
    NeverOverflowsIff(Config(10, TWO_TO_33, TWO_TO_63 - 1));
  }
}
