/** The doubles from one half up to 1, and their products with 100. */
module Doubles {
  import opened Ring

  /** These doubles are multiples of 2^-53, and are counted in that unit. */
  const UNIT: int := 0x20_0000_0000_0000

  /** A double, as far as these are concerned. */
  type Double = x: real | 0.5 <= x < 1.0 ==> (x * UNIT as real).Floor as real == x * UNIT as real

  function Units(x: Double): int {
    (x * UNIT as real).Floor
  }

  /** The whole number nearest to `a / b`; of two that are equally near, the even one. */
  function Near(a: int, b: int): int
    requires b > 0
  {
    var q, r := a / b, a % b;
    if 2 * r > b || (2 * r == b && q % 2 == 1) then q + 1 else q
  }

  /** `percent / 100.0`, which is also what a literal with these two decimals stands for. */
  function Stored(percent: nat): int {
    Near(percent * UNIT, 100)
  }

  lemma StoredInRange(percent: nat)
    requires 50 <= percent <= 95
    ensures UNIT / 2 <= Stored(percent) <= Stored(95) < UNIT
    ensures -50 <= Stored(percent) * 100 - percent * UNIT <= 50
  {
  }

  /**
    The product with 100, rounded to a double and then to its whole part. Doubles are multiples of 2^-47
    from 32 up to 64, and of 2^-46 from there up to 128.
   */
  function WholePercent(k: int): (p: nat)
    requires UNIT / 2 <= k < UNIT
    ensures 50 <= p <= 100
    ensures k <= Stored(95) ==> p <= 95
  {
    WholeBounds(k);
    if k * 100 < 64 * UNIT then Near(k * 100, 64) / 0x8000_0000_0000 else Near(k * 100, 128) / 0x4000_0000_0000
  }

  lemma WholeBounds(k: int)
    requires UNIT / 2 <= k < UNIT
    ensures k * 100 < 64 * UNIT ==> 50 <= Near(k * 100, 64) / 0x8000_0000_0000 <= 64
    ensures k * 100 >= 64 * UNIT ==> 64 <= Near(k * 100, 128) / 0x4000_0000_0000 <= 100
    ensures k * 100 >= 64 * UNIT && k <= Stored(95) ==> Near(k * 100, 128) / 0x4000_0000_0000 <= 95
  {
    NearAtLeast64(k * 100, 50 * 0x8000_0000_0000);
    NearAtLeast64(k * 100, 65 * 0x8000_0000_0000);
    NearAtLeast128(k * 100, 64 * 0x4000_0000_0000);
    NearAtLeast128(k * 100, 96 * 0x4000_0000_0000);
    NearAtLeast128(k * 100, 101 * 0x4000_0000_0000);
    StoredInRange(95);
    hide Near, Stored;
  }

  /** Ties are rounded to even numbers, so those are reached half a step below. */
  lemma NearAtLeast64(a: int, m: int)
    requires m % 2 == 0
    ensures Near(a, 64) >= m <==> a >= m * 64 - 32
  {
  }

  lemma NearAtLeast128(a: int, m: int)
    requires m % 2 == 0
    ensures Near(a, 128) >= m <==> a >= m * 128 - 64
  {
  }

  lemma WholePartAtLeast(x: int, n: int)
    ensures x / 0x8000_0000_0000 >= n <==> x >= n * 0x8000_0000_0000
    ensures x / 0x4000_0000_0000 >= n <==> x >= n * 0x4000_0000_0000
  {
  }

  lemma LowWhole(a: int, n: int)
    ensures Near(a, 64) / 0x8000_0000_0000 >= n <==> a >= n * UNIT - 32
  {
    hide Near;
    NearAtLeast64(a, n * 0x8000_0000_0000);
    WholePartAtLeast(Near(a, 64), n);
  }

  lemma HighWhole(a: int, n: int)
    ensures Near(a, 128) / 0x4000_0000_0000 >= n <==> a >= n * UNIT - 64
  {
    hide Near;
    NearAtLeast128(a, n * 0x4000_0000_0000);
    WholePartAtLeast(Near(a, 128), n);
  }

  lemma WholeAtLeast(k: int, n: nat)
    requires UNIT / 2 <= k < UNIT && 51 <= n <= 95
    ensures WholePercent(k) >= n <==> k * 100 >= n * UNIT - if n <= 64 then 32 else 64
  {
    hide Near, Stored;
    LowWhole(k * 100, n);
    HighWhole(k * 100, n);
  }

  /** A percentage that is divided and multiplied by 100 is itself again, except that 57 and 58 lose one. */
  lemma PercentKept(percent: nat)
    requires 50 <= percent <= 95
    ensures UNIT / 2 <= Stored(percent) <= Stored(95) < UNIT
    ensures WholePercent(Stored(percent)) == if percent in {57, 58} then percent - 1 else percent
  {
    hide WholePercent;
    StoredInRange(percent);
    if percent <= 64 {
      StoredError(percent);
    }
    if percent > 50 {
      WholeAtLeast(Stored(percent), percent);
    }
    if percent > 51 {
      WholeAtLeast(Stored(percent), percent - 1);
    }
    if percent < 95 {
      WholeAtLeast(Stored(percent), percent + 1);
    }
  }

  /** Only these two lie more than 32 below, where the product still rounds up. */
  lemma StoredError(percent: nat)
    requires 50 <= percent <= 64
    ensures Stored(percent) * 100 - percent * UNIT < -32 <==> percent in {57, 58}
  {
  }

  /**
    `n * (percent / 100.0)` for a power of two: that product is exact, and its whole part is the one of the
    exact quotient, because a quotient that is rounded down is never a whole number.
   */
  lemma ThresholdIsExact(n: nat, percent: nat)
    requires IsPow2(n) && n * 50 < UNIT && 50 <= percent <= 95
    ensures n * Stored(percent) / UNIT == n * percent / 100
  {
    hide Stored, IsPow2;
    StoredInRange(percent);
    Spread(n, Stored(percent), percent, Stored(percent) * 100 - percent * UNIT);
    Scaled(n, Stored(percent) * 100 - percent * UNIT);
    WholeIsExact(n, percent);
    WholeQuotient(n * Stored(percent), n * percent, n * (Stored(percent) * 100 - percent * UNIT));
  }

  lemma WholeIsExact(n: nat, percent: nat)
    requires IsPow2(n)
    ensures n * percent % 100 == 0 ==> Stored(percent) * 100 == percent * UNIT
  {
    hide Stored;
    var b := n * percent;
    if b % 100 == 0 {
      assert b % 25 == 0;
      Multiples(n, percent);
      StoredExactly(percent);
    }
  }

  lemma Spread(n: nat, k: int, percent: int, e: int)
    requires k * 100 == percent * UNIT + e
    ensures n * k * 100 == n * percent * UNIT + n * e
  {
    assert n * (k * 100) == n * (percent * UNIT) + n * e;
  }

  lemma Scaled(n: nat, e: int)
    requires n * 50 < UNIT && -50 <= e <= 50
    ensures -UNIT < n * e < UNIT
    ensures e == 0 ==> n * e == 0
  {
    assert n * (50 - e) >= 0 && n * (50 + e) >= 0;
  }

  /** If `a` is `b / 100` units and an error below one hundredth of a unit, `b / 100` is its whole part. */
  lemma WholeQuotient(a: int, b: int, error: int)
    requires a * 100 == b * UNIT + error && -UNIT < error < UNIT && (b % 100 == 0 ==> error == 0)
    ensures a / UNIT == b / 100
  {
    var q, r := b / 100, b % 100;
    assert b == 100 * q + r;
  }

  /** Two is no divisor of 25. */
  lemma {:induction false} Multiples(n: nat, percent: nat)
    requires IsPow2(n) && n * percent % 25 == 0
    ensures percent % 25 == 0
  {
    if n > 1 {
      var m := n / 2;
      assert n * percent == 2 * (m * percent);
      Multiples(m, percent);
    }
  }

  lemma StoredExactly(percent: nat)
    requires percent % 25 == 0
    ensures Stored(percent) * 100 == percent * UNIT
  {
    var q := percent / 25;
    assert percent * UNIT == 100 * (q * (UNIT / 4));
  }

  /** Doubles from 2^-4 up to 2^-3 are multiples of 2^-56. */
  const FINE_UNIT: int := 0x100_0000_0000_0000

  /** `n * 0.10`: the double is a little above one tenth, but not enough to lift the whole part. */
  lemma TenthIsExact(n: nat)
    requires 4 * n < FINE_UNIT
    ensures n * Near(FINE_UNIT, 10) / FINE_UNIT == n / 10
  {
    assert Near(FINE_UNIT, 10) * 10 == FINE_UNIT + 4;
    var q, r := n / 10, n % 10;
    var a := n * Near(FINE_UNIT, 10);
    assert a * 10 == n * FINE_UNIT + 4 * n;
  }

  /** Near is what it is called: nothing is nearer, and ties go to even numbers. */
  lemma NearIsNearest(a: int, b: int)
    requires b > 0
    ensures -b <= 2 * (Near(a, b) * b - a) <= b
    ensures 2 * (Near(a, b) * b - a) in {-b, b} ==> Near(a, b) % 2 == 0
  {
    var q, r := a / b, a % b;
    assert a == q * b + r && (q + 1) * b == q * b + b;
  }
}
