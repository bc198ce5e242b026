/** The random source, injected: every contract that uses it holds for every stream of draws. */
module Random {

  /** One value of `Math.random()`: a real number in [0, 1). */
  type Fraction = r: real | 0.0 <= r < 1.0

  /** An endless stream of draws; a cursor into it says how many draws were used so far. */
  type Draws = nat -> Fraction

  /** `Math.floor(r * span)`: a uniform integer in [0, span) when r is uniform. */
  function RandomBelow(r: Fraction, span: nat): (k: int)
    requires span > 0
    ensures 0 <= k < span
  {
    assert r * span as real < span as real by {
      assert (1.0 - r) * span as real > 0.0;
    }
    (r * span as real).Floor
  }
}
