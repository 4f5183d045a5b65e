/**
  Positions on a circle of `n` buckets. Every step is written with a comparison instead of a
  remainder, so that only MaskIsModulo has to reason about division.
 */
module Ring {

  /** The bitwise AND of two unsigned numbers, one binary digit at a time. */
  function BitAnd(a: nat, b: nat): nat {
    if a == 0 || b == 0 then 0
    else 2 * BitAnd(a / 2, b / 2) + (if a % 2 == 1 && b % 2 == 1 then 1 else 0)
  }

  predicate IsPow2(n: nat) {
    n == 1 || (n > 1 && n % 2 == 0 && IsPow2(n / 2))
  }

  /** `x & (n - 1)`, the map's `x & mask`, is the remainder by `n` because `n` is a power of two. */
  lemma {:induction false} MaskIsModulo(x: nat, n: nat)
    requires IsPow2(n)
    ensures BitAnd(x, n - 1) == x % n
    decreases n
  {
    if n > 1 {
      var m := n / 2;
      MaskIsModulo(x / 2, m);
      assert (n - 1) / 2 == m - 1 && (n - 1) % 2 == 1;
      SplitModulo(x, m);
      assert BitAnd(x / 2, 0) == 0;
    }
  }

  lemma SplitModulo(x: nat, m: nat)
    requires m > 0
    ensures x % (2 * m) == 2 * ((x / 2) % m) + x % 2
  {
    var q, r := (x / 2) / m, (x / 2) % m;
    var low := 2 * r + x % 2;
    assert x == 2 * (x / 2) + x % 2;
    assert x == (2 * m) * q + low by { assert x / 2 == m * q + r; }
    RemainderIs(x, 2 * m, q, low);
  }

  lemma RemainderIs(x: nat, n: nat, q: nat, r: nat)
    requires n > 0 && r < n && x == n * q + r
    ensures x % n == r
  {
    var d := x / n - q;
    assert n * d == r - x % n by { assert n * (x / n) == n * q + n * d; }
    assert d > 0 ==> n * d >= n;
    assert d < 0 ==> n * d <= n * -1;
  }

  function Next(i: nat, n: nat): (j: nat)
    requires i < n
    ensures j < n
  {
    if i + 1 == n then 0 else i + 1
  }

  function Prev(i: nat, n: nat): (j: nat)
    requires i < n
    ensures j < n && Next(j, n) == i
  {
    if i == 0 then n - 1 else i - 1
  }

  /** The position `s` steps after `i`. */
  function Fwd(i: nat, s: nat, n: nat): (j: nat)
    requires i < n && s <= n
    ensures j < n
  {
    if i + s < n then i + s else i + s - n
  }

  /** How many steps lead from `i` to `j`. */
  function Dist(i: nat, j: nat, n: nat): (s: nat)
    requires i < n && j < n
    ensures s < n && Fwd(i, s, n) == j
  {
    if i <= j then j - i else j + n - i
  }

  /** `(i + 1) & mask` is the next bucket, wrapping at the end. */
  lemma MaskedStep(i: nat, n: nat)
    requires IsPow2(n) && i < n
    ensures BitAnd(i + 1, n - 1) == Next(i, n)
  {
    MaskIsModulo(i + 1, n);
    RemainderIs(i + 1, n, if i + 1 == n then 1 else 0, Next(i, n));
  }

  /** Products of powers of two are powers of two. */
  lemma {:induction false} ProductIsPow2(a: nat, b: nat)
    requires IsPow2(a) && IsPow2(b)
    ensures IsPow2(a * b)
  {
    if a > 1 {
      ProductIsPow2(a / 2, b);
      TwiceAsMuch(a / 2, b);
    }
  }

  lemma TwiceAsMuch(h: nat, b: nat)
    ensures 2 * h * b == 2 * (h * b)
  {
  }

  /** Shifting by a sum is shifting twice, and shifting by one is doubling. */
  lemma {:induction false} ShiftAdds(n: nat, p: nat, q: nat)
    ensures Shift(n, 0) == n && Shift(n, 1) == 2 * n && Shift(n, p + q) == Shift(Shift(n, p), q)
  {
    if q > 0 {
      ShiftAdds(n, p, q - 1);
    }
  }

  /** Doubling keeps powers of two. */
  lemma ShiftIsPow2(n: nat, p: nat)
    requires IsPow2(n)
    ensures IsPow2(Shift(n, p)) && Shift(n, p) >= n
  {
    if p > 0 {
      ShiftIsPow2(n, p - 1);
      assert Shift(n, p) / 2 == Shift(n, p - 1);
    }
  }

  /** Growing at least doubles, and leaves the table at most half full. */
  lemma ShiftDoubles(n: nat, p: nat)
    requires IsPow2(n) && p >= 1
    ensures IsPow2(Shift(n, p)) && Shift(n, p) >= 2 * n
  {
    ShiftIsPow2(n, p);
    ShiftIsPow2(n, p - 1);
  }

  /** `n << p`, that is `n * (1 << p)`. */
  function Shift(n: nat, p: nat): nat {
    if p == 0 then n else 2 * Shift(n, p - 1)
  }

  /** Doubles `n` until it is at least `cap`. */
  function RoundUp(cap: nat, n: nat): (r: nat)
    requires n > 0
    ensures r >= n && r >= cap
    decreases cap - n
  {
    if n < cap then RoundUp(cap, 2 * n) else n
  }

  /** From a power of two this is the least power of two that is large enough. */
  lemma {:induction false} RoundUpIsLeast(cap: nat, n: nat)
    requires IsPow2(n)
    ensures IsPow2(RoundUp(cap, n)) && forall p: nat :: IsPow2(p) && p >= n && p >= cap ==> p >= RoundUp(cap, n)
    decreases cap - n
  {
    if n < cap {
      RoundUpIsLeast(cap, 2 * n);
      forall p: nat | IsPow2(p) && p >= n && p >= cap ensures p >= RoundUp(cap, n) {
        Pow2Gap(n, p);
      }
    }
  }

  /** Of two powers of two the smaller divides the larger, so it is at most its half. */
  lemma {:induction false} Pow2Gap(a: nat, b: nat)
    requires IsPow2(a) && IsPow2(b) && a < b
    ensures b % 2 == 0 && IsPow2(b / 2) && a <= b / 2
  {
    if a > 1 {
      Pow2Gap(a / 2, b / 2);
    }
  }

  /** The first `d` positions from `hm`. */
  ghost function Arc(hm: nat, d: nat, n: nat): set<int>
    requires hm < n && d <= n
  {
    if d == 0 then {} else Arc(hm, d - 1, n) + {Fwd(hm, d - 1, n)}
  }

  lemma ArcSize(hm: nat, d: nat, n: nat)
    requires hm < n && d <= n
    ensures |Arc(hm, d, n)| == d
    ensures forall i :: i in Arc(hm, d, n) ==> 0 <= i < n && Dist(hm, i, n) < d
  {
    if d > 0 {
      ArcSize(hm, d - 1, n);
      assert Dist(hm, Fwd(hm, d - 1, n), n) == d - 1;
    }
  }

  lemma SubsetSize<T>(a: set<T>, c: set<T>)
    requires a <= c
    ensures |a| <= |c|
  {
    assert c == a + (c - a);
  }

  /** Fewer than `n` members of `0..n` leave one number out. */
  lemma SomeIsMissing(s: set<int>, n: nat) returns (e: nat)
    requires forall i :: i in s ==> 0 <= i < n
    requires |s| < n
    ensures e < n && e !in s
  {
    ArcSize(0, n, n);
    var all := Arc(0, n, n);
    if all <= s {
      SubsetSize(all, s);
    }
    assert (forall x: int :: x in all ==> x in s) ==> all <= s;
    var x: int :| x in all && x !in s;
    e := x;
  }
}
