/** Retry delays: exponential back-off, capped, with the attempt counter cast from u32 to i32
    before one is subtracted (wrapping, as in a release build). */
module Backoff {
  import opened Tokenization
  import Selection

  const TWO_31 := 0x8000_0000
  const TWO_32 := 0x1_0000_0000

  function Wrap32(x: int): int {
    (x + TWO_31) % TWO_32 - TWO_31
  }

  /** `attempt as i32 - 1`. */
  function Exponent(attempt: nat): int {
    Wrap32(Wrap32(attempt) - 1)
  }

  function Powi(b: real, e: int): real
    requires b > 0.0
  {
    if e >= 0 then Pow(b, e) else PowPositive(b, -e); 1.0 / Pow(b, -e)
  }

  function Smaller(a: real, b: real): real {
    if a <= b then a else b
  }

  /** The capped delay before it is cut to whole seconds. */
  function Capped(initial: nat, top: nat, p: real): real {
    Smaller(initial as real * p, top as real)
  }

  function RetryDelay(c: Config, attempt: nat): int
    requires c.multiplier > 0.0
  {
    if attempt == 0 then 0
    else Capped(c.initialDelay, c.maxDelay, Powi(c.multiplier, Exponent(attempt))).Floor
  }

  lemma ExponentOf(attempt: nat)
    requires 1 <= attempt < TWO_32
    ensures attempt <= TWO_31 ==> Exponent(attempt) == attempt - 1
    ensures attempt > TWO_31 ==> Exponent(attempt) == attempt - 1 - TWO_32 < 0
  {
  }

  lemma {:induction false} PowAtLeastOne(b: real, n: nat)
    requires b >= 1.0
    ensures Pow(b, n) >= 1.0
    ensures b > 1.0 && n >= 1 ==> Pow(b, n) > 1.0
    ensures b == 1.0 ==> Pow(b, n) == 1.0
  {
    if n == 0 {
    } else {
      PowAtLeastOne(b, n - 1);
      ProductAtLeast(b, Pow(b, n - 1));
    }
  }

  lemma ProductAtLeast(b: real, p: real)
    requires b >= 1.0 && p >= 1.0
    ensures b * p >= p && b * p >= b
  {
  }

  lemma {:induction false} PowGrows(b: real, m: nat, n: nat)
    requires b >= 1.0 && m <= n
    ensures Pow(b, m) <= Pow(b, n)
    decreases n - m
  {
    if m == n {
    } else {
      PowGrows(b, m, n - 1);
      PowAtLeastOne(b, n - 1);
      ProductAtLeast(b, Pow(b, n - 1));
    }
  }

  lemma ScaleUp(k: real, p: real, q: real)
    requires k >= 0.0 && p <= q
    ensures k * p <= k * q
  {
  }

  lemma CappedBounds(initial: nat, top: nat, p: real, q: real)
    requires 1.0 <= p <= q && initial <= top
    ensures initial as real <= Capped(initial, top, p) <= Capped(initial, top, q) <= top as real
    ensures Capped(initial, top, p).Floor == top ==> Capped(initial, top, q).Floor == top
  {
    ScaleUp(initial as real, 1.0, p);
    ScaleUp(initial as real, p, q);
  }

  lemma CappedFloors(initial: nat, top: nat, p: real, q: real)
    requires 1.0 <= p <= q && initial <= top
    ensures initial <= Capped(initial, top, p).Floor <= Capped(initial, top, q).Floor <= top
    ensures Capped(initial, top, p).Floor == top ==> Capped(initial, top, q).Floor == top
  {
    CappedBounds(initial, top, p, q);
  }

  /** Up to attempt 2^31 the delay is initial · multiplier^(attempt − 1), capped and cut to seconds. */
  lemma DelayIs(c: Config, attempt: nat)
    requires Sound(c) && 1 <= attempt <= TWO_31
    ensures RetryDelay(c, attempt) == Capped(c.initialDelay, c.maxDelay, Pow(c.multiplier, attempt - 1)).Floor
  {
    ExponentOf(attempt);
  }

  /** Up to attempt 2^31, delays grow with the attempt, stay between the initial and the maximal
      delay, and stay at the maximum once they reach it. */
  lemma DelaysGrowToTheCap(c: Config, a: nat, b: nat)
    requires Sound(c) && 1 <= a <= b <= TWO_31
    ensures c.initialDelay <= RetryDelay(c, a) <= RetryDelay(c, b) <= c.maxDelay
    ensures RetryDelay(c, a) == c.maxDelay ==> RetryDelay(c, b) == c.maxDelay
  {
    DelayIs(c, a);
    DelayIs(c, b);
    var p, q := Pow(c.multiplier, a - 1), Pow(c.multiplier, b - 1);
    PowAtLeastOne(c.multiplier, a - 1);
    PowGrows(c.multiplier, a - 1, b - 1);
    CappedFloors(c.initialDelay, c.maxDelay, p, q);
  }

  lemma WholeProduct(a: nat, b: nat)
    ensures a as real * b as real == (a * b) as real
  {
  }

  lemma WholePower(k: nat, n: nat) returns (p: nat)
    ensures Pow(k as real, n) == p as real && Pow(k as real, n + 1) == (k * p) as real
    ensures n == 0 ==> p == 1
  {
    if n == 0 {
      p := 1;
    } else {
      var q := WholePower(k, n - 1);
      p := k * q;
    }
    WholeProduct(k, p);
  }

  lemma CappedWhole(initial: nat, top: nat, p: nat, x: nat)
    requires x == initial * p
    ensures Capped(initial, top, p as real).Floor == Selection.Min(x, top)
  {
    WholeProduct(initial, p);
  }

  lemma Regrouped(a: nat, k: nat, p: nat)
    ensures a * (k * p) == k * (a * p)
  {
  }

  /** Delay and next delay for a whole multiplier, before the cap cuts them. */
  lemma TwoDelays(c: Config, k: nat, attempt: nat) returns (x: nat)
    requires Sound(c) && c.multiplier == k as real && 1 <= attempt < TWO_31
    ensures RetryDelay(c, attempt) == Selection.Min(x, c.maxDelay)
    ensures RetryDelay(c, attempt + 1) == Selection.Min(k * x, c.maxDelay)
    ensures attempt == 1 ==> x == c.initialDelay
  {
    DelayIs(c, attempt);
    DelayIs(c, attempt + 1);
    var p := WholePower(k, attempt - 1);
    x := c.initialDelay * p;
    CappedWhole(c.initialDelay, c.maxDelay, p, x);
    Regrouped(c.initialDelay, k, p);
    CappedWhole(c.initialDelay, c.maxDelay, k * p, k * x);
  }

  lemma CapScales(k: nat, x: nat, top: nat)
    requires k >= 1
    ensures Selection.Min(k * Selection.Min(x, top), top) == Selection.Min(k * x, top)
  {
    if x > top {
      assert k * x >= x && k * top >= top;
    }
  }

  /** The first retry waits the initial delay, and with a whole multiplier every further one that many
      times the one before, until the maximum: 5, 10, 20, 40, 60 minutes by default. */
  lemma DelaysMultiply(c: Config, k: nat, attempt: nat)
    requires Sound(c) && c.multiplier == k as real && 1 <= attempt < TWO_31
    ensures RetryDelay(c, 0) == 0 && RetryDelay(c, 1) == c.initialDelay
    ensures RetryDelay(c, attempt + 1) == Selection.Min(k * RetryDelay(c, attempt), c.maxDelay)
  {
    var _ := TwoDelays(c, k, 1);
    var x := TwoDelays(c, k, attempt);
    CapScales(k, x, c.maxDelay);
  }

  lemma ShrunkBy(k: real, r: real)
    requires k > 0.0 && r < 1.0
    ensures k * r < k
  {
  }

  lemma CappedShrinks(initial: nat, top: nat, p: real)
    requires 1 <= initial && p > 1.0
    ensures Capped(initial, top, 1.0 / p).Floor < initial
  {
    var r := 1.0 / p;
    assert r < 1.0;
    ShrunkBy(initial as real, r);
    FloorBelow(initial as real * r, initial, top);
  }

  lemma FloorBelow(x: real, n: nat, top: nat)
    requires x < n as real
    ensures Smaller(x, top as real).Floor < n
  {
  }

  /** A delay respects the initial delay exactly up to attempt 2^31, or always if the multiplier
      is 1: beyond that the cast makes the exponent negative. */
  lemma DelayBoundExact(c: Config, attempt: nat)
    requires Sound(c) && 1 <= attempt < TWO_32
    ensures RetryDelay(c, attempt) >= c.initialDelay <==> attempt <= 2147483648 || c.multiplier == 1.0
  {
    ExponentOf(attempt);
    if attempt <= TWO_31 {
      DelaysGrowToTheCap(c, attempt, attempt);
    } else {
      var n := -Exponent(attempt);
      PowAtLeastOne(c.multiplier, n);
      assert RetryDelay(c, attempt) == Capped(c.initialDelay, c.maxDelay, 1.0 / Pow(c.multiplier, n)).Floor;
      if c.multiplier == 1.0 {
        assert Capped(c.initialDelay, c.maxDelay, 1.0).Floor == c.initialDelay;
      } else {
        CappedShrinks(c.initialDelay, c.maxDelay, Pow(c.multiplier, n));
      }
    }
  }

  function TotalDelay(c: Config, n: nat): int
    requires c.multiplier > 0.0
  {
    if n == 0 then 0 else TotalDelay(c, n - 1) + RetryDelay(c, n)
  }

  /** n retries never wait more than n maximal delays in total. */
  lemma {:induction false} TotalDelayAtMost(c: Config, n: nat)
    requires Sound(c)
    ensures TotalDelay(c, n) <= n * c.maxDelay
  {
    if n == 0 {
    } else {
      TotalDelayAtMost(c, n - 1);
      assert RetryDelay(c, n) <= c.maxDelay;
      assert n * c.maxDelay == (n - 1) * c.maxDelay + c.maxDelay;
    }
  }

  /** They wait at least n initial delays as long as the exponent does not turn negative. */
  lemma {:induction false} TotalDelayAtLeast(c: Config, n: nat)
    requires Sound(c) && n < TWO_32 && (n <= TWO_31 || c.multiplier == 1.0)
    ensures n * c.initialDelay <= TotalDelay(c, n)
  {
    if n == 0 {
    } else {
      TotalDelayAtLeast(c, n - 1);
      DelayBoundExact(c, n);
      assert n * c.initialDelay == (n - 1) * c.initialDelay + c.initialDelay;
    }
  }
}
