/** The login backoff in 64-bit arithmetic, and exactly when it is the window the design asks for. */
module Backoff {
  const SECOND := 1_000_000_000
  const INT64_MAX := 0x7fff_ffff_ffff_ffff
  const HALF := 0x3fff_ffff_ffff_ffff

  type Int64 = x: int | -INT64_MAX - 1 <= x <= INT64_MAX

  // ---- the window after the n-th failure ----

  /** base * 2^k */
  function Scaled(base: nat, k: nat): (r: nat)
    ensures r >= base
  {
    if k == 0 then base else 2 * Scaled(base, k - 1)
  }

  function Min(a: int, b: int): int {
    if a < b then a else b
  }

  /** The window the design asks for: BASE * 2^(n-1), at most MAX, in whole seconds. */
  function Window(n: int, base: nat, max: nat): nat {
    if n < 1 then 0 else Min(max, Scaled(base, n - 1)) / SECOND
  }

  /** 64-bit signed arithmetic wraps. */
  function Wrap(x: int): Int64 {
    (x + INT64_MAX + 1) % 0x1_0000_0000_0000_0000 - INT64_MAX - 1
  }

  /** Go divides towards zero. */
  function Truncated(x: int, d: nat): int
    requires d > 0
  {
    if x >= 0 then x / d else -(-x / d)
  }

  /** Doubling k times in 64-bit arithmetic, but no further than to MAX. */
  function Doubled(b: Int64, max: Int64, k: nat): Int64
    decreases k
  {
    if k == 0 then b
    else if Wrap(b * 2) >= max then max
    else Doubled(Wrap(b * 2), max, k - 1)
  }

  /** What the loop computes, for all durations. */
  function Seconds(n: int, base: Int64, max: Int64): int {
    if n < 1 then 0 else Truncated(Min(Doubled(base, max, n - 1), max), SECOND)
  }

  method BackoffSeconds(n: Int64, base: Int64, max: Int64) returns (s: int)
    ensures s == Seconds(n, base, max)
  {
    if n < 1 {
      return 0;
    }
    var b: int, i := base, 1;
    while i < n
      invariant 1 <= i <= n
      invariant -INT64_MAX - 1 <= b <= INT64_MAX
      invariant Doubled(b, max, n - i) == Doubled(base, max, n - 1)
    {
      b := Wrap(b * 2);
      if b >= max {
        b := max;
        break;
      }
      i := i + 1;
    }
    if b > max {
      b := max;
    }
    s := Truncated(b, SECOND);
  }

  // ---- exactly when it is the window asked for ----

  /** Every doubling that starts below MAX stays in range. */
  ghost predicate Safe(base: Int64, max: Int64) {
    0 <= base <= HALF && forall j: nat :: Scaled(base, j) < max ==> Scaled(base, j) <= HALF
  }

  /** The loop computes min(MAX, BASE * 2^(n-1)) for every n exactly when BASE is at most half the
      range and no doubling on the way to MAX starts above it. */
  lemma BackoffExactly(base: Int64, max: Int64)
    requires 0 <= base && 0 <= max
    ensures Safe(base, max) <==> forall n: Int64 :: Seconds(n, base, max) == Window(n, base, max)
  {
    if Safe(base, max) {
      forall n: Int64
        ensures Seconds(n, base, max) == Window(n, base, max)
      {
        SafeBackoff(n, base, max);
      }
    } else {
      var n := UnsafeBackoff(base, max);
      assert Seconds(n, base, max) != Window(n, base, max);
    }
  }

  lemma SafeBackoff(n: int, base: Int64, max: Int64)
    requires Safe(base, max) && 0 <= max
    ensures Seconds(n, base, max) == Window(n, base, max)
  {
    if n >= 1 {
      DoubledFrom(base, max, 0, n - 1);
      assert Scaled(base, 0) == base;
    }
  }

  lemma WrapFits(x: int)
    requires -INT64_MAX - 1 <= x <= INT64_MAX
    ensures Wrap(x) == x
  {
  }

  lemma WrapTurns(x: int)
    requires INT64_MAX < x <= 2 * INT64_MAX
    ensures Wrap(x) == x - 2 * INT64_MAX - 2 < 0
  {
  }

  lemma {:induction false} DoubledFrom(base: Int64, max: Int64, j: nat, k: nat)
    requires Safe(base, max) && 0 <= max && Scaled(base, j) <= INT64_MAX && (j > 0 ==> Scaled(base, j) < max)
    ensures Min(Doubled(Scaled(base, j), max, k), max) == Min(max, Scaled(base, j + k))
    decreases k
  {
    if k > 0 {
      var b := Scaled(base, j);
      SafeAt(base, max, j);
      WrapFits(b * 2);
      hide Wrap, Safe;
      if b * 2 >= max {
        Grows(base, j + 1, j + k);
      } else {
        DoubledFrom(base, max, j + 1, k - 1);
      }
    }
  }

  lemma SafeAt(base: Int64, max: Int64, j: nat)
    requires Safe(base, max) && (j > 0 ==> Scaled(base, j) < max)
    ensures Scaled(base, j) <= HALF
  {
    if j == 0 {
      assert Scaled(base, 0) == base;
    }
  }

  /** Where a doubling leaves the range, some count gets too small a window. */
  lemma UnsafeBackoff(base: Int64, max: Int64) returns (n: Int64)
    requires 0 <= base && 0 <= max && !Safe(base, max)
    ensures n >= 2 && Seconds(n, base, max) <= 0 && Seconds(n, base, max) < Window(n, base, max)
  {
    var j: nat := FirstUnsafe(base, max);
    hide Safe;
    var b := Scaled(base, j);
    WrapTurns(b * 2);
    var c := Wrap(b * 2);
    hide Wrap;
    DoublesTo(base, max, j, 1);
    assert Doubled(b, max, 1) == Doubled(c, max, 0) == c;
    n := j + 2;
    assert Seconds(n, base, max) == Truncated(c, SECOND) <= 0;
    if max >= SECOND {
      assert Window(n, base, max) == max / SECOND >= 1;
    } else {
      var k := BecomesNegative(c, max);
      DoublesTo(base, max, j, 1 + k);
      assert Doubled(b, max, 1 + k) == Doubled(c, max, k);
      n := j + 2 + k;
    }
  }

  /** The first doubling that leaves the range is reached. */
  lemma FirstUnsafe(base: Int64, max: Int64) returns (j: nat)
    requires 0 <= base && 0 <= max && !Safe(base, max)
    ensures j <= HALF && HALF < Scaled(base, j) <= INT64_MAX
    ensures forall i: nat | i < j :: Scaled(base, i) <= HALF
    ensures j > 0 ==> Scaled(base, j) < max
  {
    j := 0;
    if base <= HALF {
      var m: nat :| Scaled(base, m) < max && Scaled(base, m) > HALF;
      while Scaled(base, j) <= HALF
        invariant j <= m
        invariant forall i: nat | i < j :: Scaled(base, i) <= HALF
        decreases m - j
      {
        j := j + 1;
      }
      Grows(base, j, m);
      if base == 0 {
        ScaledZero(j);
      }
      AtMost(base, j - 1);
    }
  }

  lemma {:induction false} ScaledZero(k: nat)
    ensures Scaled(0, k) == 0
  {
    if k > 0 {
      ScaledZero(k - 1);
    }
  }

  lemma {:induction false} AtMost(base: nat, j: nat)
    requires base >= 1
    ensures j < Scaled(base, j)
  {
    if j > 0 {
      AtMost(base, j - 1);
    }
  }

  lemma {:induction false} DoublesTo(base: Int64, max: Int64, j: nat, k: nat)
    requires 0 <= base && Scaled(base, j) <= INT64_MAX
    requires forall i: nat | i < j :: Scaled(base, i) <= HALF
    requires j > 0 ==> Scaled(base, j) < max
    ensures Doubled(base, max, j + k) == Doubled(Scaled(base, j), max, k)
    decreases j
  {
    if j > 0 {
      var b := Scaled(base, j - 1);
      DoublesTo(base, max, j - 1, k + 1);
      WrapFits(b * 2);
      hide Wrap;
      assert Doubled(b, max, k + 1) == Doubled(b * 2, max, k);
    }
  }

  /** A small negative number doubles to at least a whole second below zero. */
  lemma BecomesNegative(c: Int64, max: Int64) returns (k: nat)
    requires c < 0 <= max
    ensures k <= SECOND && Doubled(c, max, k) < 0 && Truncated(Doubled(c, max, k), SECOND) < 0
  {
    k := Steps(c);
    StaysNegative(c, max, k);
    WholeSecond(Doubled(c, max, k));
  }

  lemma WholeSecond(c: int)
    requires c <= -SECOND
    ensures Truncated(c, SECOND) < 0
  {
  }

  /** How often c doubles until it is a second below zero. */
  function Steps(c: int): (k: nat)
    requires c < 0
    ensures k <= SECOND && (c > -SECOND ==> k <= SECOND + c)
    decreases SECOND + c
  {
    if c <= -SECOND then 0 else 1 + Steps(2 * c)
  }

  lemma {:induction false} StaysNegative(c: Int64, max: Int64, k: nat)
    requires c < 0 <= max && k == Steps(c)
    ensures Doubled(c, max, k) <= -SECOND
    decreases k
  {
    if k > 0 {
      var d: int := c;
      WrapFits(d * 2);
      hide Wrap;
      StaysNegative(d * 2, max, k - 1);
    }
  }

  lemma {:induction false} Grows(base: nat, m: nat, n: nat)
    requires m <= n
    ensures Scaled(base, m) <= Scaled(base, n)
  {
    if m < n {
      Grows(base, m, n - 1);
    }
  }

  /** For example a base of one second and no ceiling: the 35th failure opens no window. */
  lemma NoCeilingOverflows()
    ensures !Safe(SECOND, INT64_MAX) && Seconds(35, SECOND, INT64_MAX) <= 0 < Window(35, SECOND, INT64_MAX)
  {
    assert Scaled(SECOND, 11) == 2048 * SECOND;
    assert Scaled(SECOND, 22) == 2048 * 2048 * SECOND;
    assert Scaled(SECOND, 32) == 1024 * 2048 * 2048 * SECOND;
    var b := Scaled(SECOND, 33);
    assert b == 2048 * 2048 * 2048 * SECOND;
    forall i: nat | i < 33
      ensures Scaled(SECOND, i) <= HALF
    {
      Grows(SECOND, i, 32);
    }
    DoublesTo(SECOND, INT64_MAX, 33, 1);
    WrapTurns(b * 2);
    hide Wrap;
    assert Doubled(b, INT64_MAX, 1) == Doubled(Wrap(b * 2), INT64_MAX, 0);
  }
}
